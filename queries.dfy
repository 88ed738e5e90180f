/** The SELECT statements of the store as pure functions over the tables.
    An unordered SELECT returns rows in table order, with the programs table
    as the outer loop of every join; `fetchone` is the first of those rows. */
module Queries {
  import opened Util
  import opened Text
  import opened Schema

  /** `f.*` together with the institution the inner join matched. */
  datatype Joined = Joined(filiere: Filiere, etablissement: Etablissement)

  /** A row of `get_filieres_by_domaine`: the joined program and `d.nom`. */
  datatype DomaineRow = DomaineRow(joined: Joined, domaineNom: string)

  /** A row of `get_etablissements_by_domaine`: `e.*` and `d.nom`. */
  datatype EtabDomaineRow = EtabDomaineRow(etablissement: Etablissement, domaineNom: string)

  /** The WHERE clauses the program queries use. `TypeIs` applies its
      institution filter only when that name is given and non-empty. */
  datatype Where =
    | EtabIs(id: int)
    | NameLike(q: string)
    | TypeIs(kind: string, etablissement: Option<string>)
    | NameOrDescriptionLike(q: string)

  predicate Holds(w: Where, f: Filiere, e: Etablissement)
  {
    match w
    case EtabIs(id) => f.etablissementId == id
    case NameLike(q) => Like(f.nom, q)
    case TypeIs(k, en) => f.kind == k && (Given(en) ==> Like(e.nom, en.value))
    case NameOrDescriptionLike(q) => Like(f.nom, q) || Like(f.description, q)
  }

  /** `JOIN etablissements e ON f.etablissement_id = e.id`: the institution
      with that id, the first one in table order. */
  function EtablissementById(es: seq<Etablissement>, id: int): (r: Option<Etablissement>)
    ensures r.Some? ==> r.value in es && r.value.id == id
    ensures r.None? <==> forall e :: e in es ==> e.id != id
  {
    if es == [] then None
    else if es[0].id == id then Some(es[0])
    else EtablissementById(es[1..], id)
  }

  /** `JOIN domaines_interet d ON fd.domaine_id = d.id`. */
  function DomaineById(ds: seq<Domaine>, id: int): (r: Option<Domaine>)
    ensures r.Some? ==> r.value in ds && r.value.id == id
    ensures r.None? <==> forall d :: d in ds ==> d.id != id
  {
    if ds == [] then None
    else if ds[0].id == id then Some(ds[0])
    else DomaineById(ds[1..], id)
  }

  /** With positional ids the join finds the row at position `id - 1`, so it
      matches at most one institution. */
  lemma {:induction false} EtablissementByIdPositional(es: seq<Etablissement>, base: int, id: int)
    requires forall i :: 0 <= i < |es| ==> es[i].id == base + i
    ensures EtablissementById(es, id) == if base <= id < base + |es| then Some(es[id - base]) else None
  {
    if es != [] && es[0].id != id {
      EtablissementByIdPositional(es[1..], base + 1, id);
    }
  }

  lemma {:induction false} DomaineByIdPositional(ds: seq<Domaine>, base: int, id: int)
    requires forall i :: 0 <= i < |ds| ==> ds[i].id == base + i
    ensures DomaineById(ds, id) == if base <= id < base + |ds| then Some(ds[id - base]) else None
  {
    if ds != [] && ds[0].id != id {
      DomaineByIdPositional(ds[1..], base + 1, id);
    }
  }

  /** Program `f` has an institution and satisfies `w`. */
  predicate Joins(es: seq<Etablissement>, w: Where, f: Filiere)
  {
    match EtablissementById(es, f.etablissementId)
    case Some(e) => Holds(w, f, e)
    case None => false
  }

  /** The rows one program contributes to the join. */
  function JoinOne(es: seq<Etablissement>, w: Where, f: Filiere): seq<Joined>
  {
    if Joins(es, w, f) then [Joined(f, EtablissementById(es, f.etablissementId).value)] else []
  }

  /** `SELECT f.*, e.nom ... FROM filieres f JOIN etablissements e ... WHERE w`. */
  function JoinWhere(fs: seq<Filiere>, es: seq<Etablissement>, w: Where): seq<Joined>
  {
    if fs == [] then [] else JoinWhere(fs[..|fs| - 1], es, w) + JoinOne(es, w, fs[|fs| - 1])
  }

  function FiliereOf(j: Joined): Filiere
  {
    j.filiere
  }

  /** A row is in the join exactly when its program is in the table, its
      institution is the one the join finds, and the WHERE clause holds. */
  lemma {:induction false} JoinWhereMembers(fs: seq<Filiere>, es: seq<Etablissement>, w: Where)
    ensures forall j :: j in JoinWhere(fs, es, w) <==>
      && j.filiere in fs
      && EtablissementById(es, j.filiere.etablissementId) == Some(j.etablissement)
      && Holds(w, j.filiere, j.etablissement)
  {
    if fs != [] {
      var init := fs[..|fs| - 1];
      JoinWhereMembers(init, es, w);
      assert fs == init + [fs[|fs| - 1]];
    }
  }

  /** The joined programs are the matching programs, each once and in table order. */
  lemma {:induction false} JoinWhereOrder(fs: seq<Filiere>, es: seq<Etablissement>, w: Where)
    ensures Map(FiliereOf, JoinWhere(fs, es, w)) == Filter((f: Filiere) => Joins(es, w, f), fs)
  {
    if fs != [] {
      var p := (f: Filiere) => Joins(es, w, f);
      var init, last := fs[..|fs| - 1], fs[|fs| - 1];
      var a := JoinWhere(init, es, w);
      var b := JoinOne(es, w, last);
      assert init + [last] == fs;
      calc {
        Map(FiliereOf, JoinWhere(fs, es, w));
        Map(FiliereOf, a + b);
        Map(FiliereOf, a) + Map(FiliereOf, b);
        { JoinWhereOrder(init, es, w); FilterSingle(p, last); }
        Filter(p, init) + Filter(p, [last]);
        { FilterAppend(p, init, [last]); }
        Filter(p, fs);
      }
    }
  }

  lemma {:induction false} JoinWhereAppend(a: seq<Filiere>, b: seq<Filiere>, es: seq<Etablissement>, w: Where)
    ensures JoinWhere(a + b, es, w) == JoinWhere(a, es, w) + JoinWhere(b, es, w)
  {
    if b != [] {
      var init := b[..|b| - 1];
      assert (a + b)[..|a + b| - 1] == a + init;
      JoinWhereAppend(a, init, es, w);
    } else {
      assert a + b == a;
    }
  }

  /** `fetchone()`: the first program, in table order, that joins. */
  function FirstJoin(fs: seq<Filiere>, es: seq<Etablissement>, w: Where): (r: Option<Joined>)
    ensures r.None? <==> forall i :: 0 <= i < |fs| ==> !Joins(es, w, fs[i])
    ensures r.Some? ==>
      && r.value.filiere in fs && Joins(es, w, r.value.filiere)
      && EtablissementById(es, r.value.filiere.etablissementId) == Some(r.value.etablissement)
  {
    if fs == [] then None
    else if Joins(es, w, fs[0]) then Some(Joined(fs[0], EtablissementById(es, fs[0].etablissementId).value))
    else
      var r := FirstJoin(fs[1..], es, w);
      assert forall i :: 1 <= i < |fs| ==> fs[i] == fs[1..][i - 1];
      r
  }

  /** `fetchone` gives the first row `fetchall` would give, and nothing
      exactly when the result set is empty. */
  lemma {:induction false} FirstJoinIsFirstRow(fs: seq<Filiere>, es: seq<Etablissement>, w: Where)
    ensures FirstJoin(fs, es, w) ==
      if JoinWhere(fs, es, w) == [] then None else Some(JoinWhere(fs, es, w)[0])
  {
    if fs != [] {
      assert fs == [fs[0]] + fs[1..];
      JoinWhereAppend([fs[0]], fs[1..], es, w);
      assert JoinWhere([fs[0]], es, w) == JoinOne(es, w, fs[0]);
      FirstJoinIsFirstRow(fs[1..], es, w);
    }
  }

  /** The program `fetchone` returns is preceded only by programs that do not join. */
  lemma {:induction false} FirstJoinIsEarliest(fs: seq<Filiere>, es: seq<Etablissement>, w: Where)
    ensures FirstJoin(fs, es, w).Some? ==>
      exists k :: 0 <= k < |fs| && fs[k] == FirstJoin(fs, es, w).value.filiere &&
        forall i :: 0 <= i < k ==> !Joins(es, w, fs[i])
  {
    if fs != [] && !Joins(es, w, fs[0]) {
      FirstJoinIsEarliest(fs[1..], es, w);
      if FirstJoin(fs, es, w).Some? {
        var k :| 0 <= k < |fs[1..]| && fs[1..][k] == FirstJoin(fs, es, w).value.filiere &&
          forall i :: 0 <= i < k ==> !Joins(es, w, fs[1..][i]);
        assert fs[k + 1] == fs[1..][k];
        assert forall i :: 1 <= i < k + 1 ==> fs[i] == fs[1..][i - 1];
      }
    } else if fs != [] {
      assert fs[0] == FirstJoin(fs, es, w).value.filiere;
    }
  }

  // ---------------------------------------------------------------------
  // The getters

  /** `get_filieres_by_etablissement(id)`. */
  function FilieresByEtablissement(t: Tables, id: int): seq<Joined>
  {
    JoinWhere(t.filieres, t.etablissements, EtabIs(id))
  }

  /** `get_filiere_details(q)`; the row also carries the institution's contact and site. */
  function FiliereDetails(t: Tables, q: string): Option<Joined>
  {
    FirstJoin(t.filieres, t.etablissements, NameLike(q))
  }

  /** `get_filieres_by_type(kind, etablissement)`. */
  function FilieresByType(t: Tables, kind: string, etablissement: Option<string>): seq<Joined>
  {
    JoinWhere(t.filieres, t.etablissements, TypeIs(kind, etablissement))
  }

  /** `search_filieres(q)`. */
  function SearchFilieres(t: Tables, q: string): seq<Joined>
  {
    JoinWhere(t.filieres, t.etablissements, NameOrDescriptionLike(q))
  }

  /** `get_filieres_by_etablissement(id)` holds exactly the programs whose
      `etablissement_id` is `id`, each carrying institution `id`. In a store
      with positional ids that institution is row `id`, and the rows are the
      programs of that institution in table order. */
  lemma FilieresByEtablissementExact(t: Tables, id: int)
    requires WellFormed(t)
    ensures forall j :: j in FilieresByEtablissement(t, id) <==>
      && j.filiere in t.filieres && j.filiere.etablissementId == id
      && 1 <= id <= |t.etablissements| && j.etablissement == t.etablissements[id - 1]
    ensures Map(FiliereOf, FilieresByEtablissement(t, id)) ==
      Filter((f: Filiere) => f.etablissementId == id && 1 <= id <= |t.etablissements|, t.filieres)
  {
    JoinWhereMembers(t.filieres, t.etablissements, EtabIs(id));
    EtablissementByIdPositional(t.etablissements, 1, id);
    JoinWhereOrder(t.filieres, t.etablissements, EtabIs(id));
    FilterSame((f: Filiere) => Joins(t.etablissements, EtabIs(id), f),
      (f: Filiere) => f.etablissementId == id && 1 <= id <= |t.etablissements|, t.filieres);
  }

  lemma {:induction false} FilterSame<A(!new)>(p: A -> bool, q: A -> bool, s: seq<A>)
    requires forall x :: x in s ==> p(x) == q(x)
    ensures Filter(p, s) == Filter(q, s)
  {
    if s != [] {
      var init := s[..|s| - 1];
      assert forall x :: x in init ==> x in s;
      FilterSame(p, q, init);
    }
  }

  /** `get_filiere_details(q)` is the first program whose name contains `q`
      and whose institution exists, with that institution; there is none
      exactly when no such program exists. */
  lemma FiliereDetailsFirstMatch(t: Tables, q: string)
    ensures var r := FiliereDetails(t, q);
      && (r.None? <==> forall f :: f in t.filieres ==>
            !Like(f.nom, q) || EtablissementById(t.etablissements, f.etablissementId).None?)
      && (r.Some? ==>
            && Like(r.value.filiere.nom, q)
            && EtablissementById(t.etablissements, r.value.filiere.etablissementId) == Some(r.value.etablissement)
            && exists k :: 0 <= k < |t.filieres| && t.filieres[k] == r.value.filiere &&
                 forall i :: 0 <= i < k ==>
                   !Like(t.filieres[i].nom, q) || EtablissementById(t.etablissements, t.filieres[i].etablissementId).None?)
  {
    var fs, es, w := t.filieres, t.etablissements, NameLike(q);
    FirstJoinIsEarliest(fs, es, w);
    assert forall f :: f in fs ==> (Joins(es, w, f) <==>
      Like(f.nom, q) && EtablissementById(es, f.etablissementId).Some?);
  }

  /** Every row of `get_filieres_by_type(kind, e)` is a program of type
      `kind` with an institution; a given non-empty `e` must occur in the
      institution's name, and an absent or empty `e` filters nothing. */
  lemma FilieresByTypeExact(t: Tables, kind: string, e: Option<string>)
    ensures forall j :: j in FilieresByType(t, kind, e) <==>
      && j.filiere in t.filieres && j.filiere.kind == kind
      && EtablissementById(t.etablissements, j.filiere.etablissementId) == Some(j.etablissement)
      && (Given(e) ==> Like(j.etablissement.nom, e.value))
  {
    JoinWhereMembers(t.filieres, t.etablissements, TypeIs(kind, e));
  }

  /** The 'professionnelle' and 'classique' listings under the same
      institution filter share no row. */
  lemma FilieresByTypeDisjoint(t: Tables, e: Option<string>)
    ensures forall j :: j in FilieresByType(t, PROFESSIONNELLE, e) ==> j !in FilieresByType(t, CLASSIQUE, e)
  {
    FilieresByTypeExact(t, PROFESSIONNELLE, e);
    FilieresByTypeExact(t, CLASSIQUE, e);
  }

  /** `search_filieres(q)` returns every program whose name or description
      contains `q` (and whose institution exists), and only those. */
  lemma SearchFilieresExact(t: Tables, q: string)
    ensures forall j :: j in SearchFilieres(t, q) <==>
      && j.filiere in t.filieres
      && EtablissementById(t.etablissements, j.filiere.etablissementId) == Some(j.etablissement)
      && (Like(j.filiere.nom, q) || Like(j.filiere.description, q))
  {
    JoinWhereMembers(t.filieres, t.etablissements, NameOrDescriptionLike(q));
  }

  // ---------------------------------------------------------------------
  // The join through the link table

  /** Link `l` belongs to program `fid` and leads to a domain whose name contains `d`. */
  predicate LinkMatches(ds: seq<Domaine>, d: string, fid: int, l: Lien)
  {
    l.filiereId == fid &&
    match DomaineById(ds, l.domaineId)
    case Some(dm) => Like(dm.nom, d)
    case None => false
  }

  /** The rows the joined program `j` contributes: one per matching link, in link-table order. */
  function LinkRows(j: Joined, ls: seq<Lien>, ds: seq<Domaine>, d: string): seq<DomaineRow>
  {
    if ls == [] then []
    else
      var l := ls[|ls| - 1];
      LinkRows(j, ls[..|ls| - 1], ds, d) +
        (if LinkMatches(ds, d, j.filiere.id, l) then [DomaineRow(j, DomaineById(ds, l.domaineId).value.nom)] else [])
  }

  function ProgramRows(es: seq<Etablissement>, ls: seq<Lien>, ds: seq<Domaine>, d: string, f: Filiere): seq<DomaineRow>
  {
    match EtablissementById(es, f.etablissementId)
    case Some(e) => LinkRows(Joined(f, e), ls, ds, d)
    case None => []
  }

  function DomaineJoin(fs: seq<Filiere>, es: seq<Etablissement>, ls: seq<Lien>, ds: seq<Domaine>, d: string): seq<DomaineRow>
  {
    if fs == [] then []
    else DomaineJoin(fs[..|fs| - 1], es, ls, ds, d) + ProgramRows(es, ls, ds, d, fs[|fs| - 1])
  }

  /** `get_filieres_by_domaine(d)`. */
  function FilieresByDomaine(t: Tables, d: string): seq<DomaineRow>
  {
    DomaineJoin(t.filieres, t.etablissements, t.liens, t.domaines, d)
  }

  /** No deduplication: a program gets one row for every link to a domain
      whose name contains `d`, so a program linked to two such domains
      appears twice. */
  lemma {:induction false} LinkRowsPerLink(j: Joined, ls: seq<Lien>, ds: seq<Domaine>, d: string)
    ensures |LinkRows(j, ls, ds, d)| == |Filter((l: Lien) => LinkMatches(ds, d, j.filiere.id, l), ls)|
    ensures forall r :: r in LinkRows(j, ls, ds, d) ==> r.joined == j
  {
    if ls != [] {
      LinkRowsPerLink(j, ls[..|ls| - 1], ds, d);
    }
  }

  /** A row is in `get_filieres_by_domaine(d)` exactly when a link joins its
      program (which has an institution) to a domain named as the row says,
      whose name contains `d`. */
  lemma {:induction false} DomaineJoinMembers(fs: seq<Filiere>, es: seq<Etablissement>, ls: seq<Lien>, ds: seq<Domaine>, d: string)
    ensures forall r :: r in DomaineJoin(fs, es, ls, ds, d) <==>
      && r.joined.filiere in fs
      && EtablissementById(es, r.joined.filiere.etablissementId) == Some(r.joined.etablissement)
      && exists l :: l in ls && LinkMatches(ds, d, r.joined.filiere.id, l) &&
           DomaineById(ds, l.domaineId).value.nom == r.domaineNom
  {
    if fs != [] {
      var init := fs[..|fs| - 1];
      var f := fs[|fs| - 1];
      DomaineJoinMembers(init, es, ls, ds, d);
      assert fs == init + [f];
      match EtablissementById(es, f.etablissementId)
      case Some(e) => LinkRowsMembers(Joined(f, e), ls, ds, d);
      case None =>
    }
  }

  lemma {:induction false} LinkRowsMembers(j: Joined, ls: seq<Lien>, ds: seq<Domaine>, d: string)
    ensures forall r :: r in LinkRows(j, ls, ds, d) <==>
      r.joined == j &&
      exists l :: l in ls && LinkMatches(ds, d, j.filiere.id, l) && DomaineById(ds, l.domaineId).value.nom == r.domaineNom
  {
    if ls != [] {
      var init := ls[..|ls| - 1];
      LinkRowsMembers(j, init, ds, d);
      assert ls == init + [ls[|ls| - 1]];
    }
  }

  // ---------------------------------------------------------------------
  // Ordered queries

  predicate EtapeLe(a: Etape, b: Etape)
  {
    a.etape <= b.etape
  }

  predicate DateLe(a: DateImportante, b: DateImportante)
  {
    StrLe(a.dateDebut, b.dateDebut)
  }

  predicate EtabNomLe(a: EtabDomaineRow, b: EtabDomaineRow)
  {
    StrLe(a.etablissement.nom, b.etablissement.nom)
  }

  /** Program rows ordered by program name (Python's `sorted(key=nom)`). */
  predicate NomLe(a: Joined, b: Joined)
  {
    StrLe(a.filiere.nom, b.filiere.nom)
  }

  lemma EtapeLePreorder()
    ensures TotalPreorder(EtapeLe)
  {
  }

  lemma DateLePreorder()
    ensures TotalPreorder(DateLe)
  {
    forall a, b ensures DateLe(a, b) || DateLe(b, a) {
      StrLeTotal(a.dateDebut, b.dateDebut);
    }
    forall a, b, c | DateLe(a, b) && DateLe(b, c) ensures DateLe(a, c) {
      StrLeTrans(a.dateDebut, b.dateDebut, c.dateDebut);
    }
  }

  lemma EtabNomLePreorder()
    ensures TotalPreorder(EtabNomLe)
  {
    forall a, b ensures EtabNomLe(a, b) || EtabNomLe(b, a) {
      StrLeTotal(a.etablissement.nom, b.etablissement.nom);
    }
    forall a, b, c | EtabNomLe(a, b) && EtabNomLe(b, c) ensures EtabNomLe(a, c) {
      StrLeTrans(a.etablissement.nom, b.etablissement.nom, c.etablissement.nom);
    }
  }

  lemma NomLePreorder()
    ensures TotalPreorder(NomLe)
  {
    forall a, b ensures NomLe(a, b) || NomLe(b, a) {
      StrLeTotal(a.filiere.nom, b.filiere.nom);
    }
    forall a, b, c | NomLe(a, b) && NomLe(b, c) ensures NomLe(a, c) {
      StrLeTrans(a.filiere.nom, b.filiere.nom, c.filiere.nom);
    }
  }

  /** `SELECT * FROM processus_preinscription ORDER BY etape`. */
  function Processus(t: Tables): seq<Etape>
  {
    SortBy(t.etapes, EtapeLe)
  }

  /** `SELECT * FROM dates_importantes ORDER BY date_debut`. */
  function DatesImportantes(t: Tables): seq<DateImportante>
  {
    SortBy(t.dates, DateLe)
  }

  /** The enrolment steps come out in ascending `etape` order, each step once. */
  lemma ProcessusOrdered(t: Tables)
    ensures SortedBy(Processus(t), EtapeLe)
    ensures multiset(Processus(t)) == multiset(t.etapes)
  {
    EtapeLePreorder();
    SortBySorted(t.etapes, EtapeLe);
  }

  /** The dates come out in ascending `date_debut` string order, each date once. */
  lemma DatesOrdered(t: Tables)
    ensures SortedBy(DatesImportantes(t), DateLe)
    ensures multiset(DatesImportantes(t)) == multiset(t.dates)
  {
    DateLePreorder();
    SortBySorted(t.dates, DateLe);
  }

  function EtabDomaineOf(r: DomaineRow): EtabDomaineRow
  {
    EtabDomaineRow(r.joined.etablissement, r.domaineNom)
  }

  /** `get_etablissements_by_domaine(d)`: SELECT DISTINCT over the same join,
      ORDER BY the institution's name. */
  function EtablissementsByDomaine(t: Tables, d: string): seq<EtabDomaineRow>
  {
    SortBy(Dedup(Map(EtabDomaineOf, FilieresByDomaine(t, d))), EtabNomLe)
  }

  /** The institutions come out sorted by name with no repeated
      (institution, domain name) row, and they are exactly the institutions
      and domain names of the program rows for `d`. */
  lemma EtablissementsByDomaineExact(t: Tables, d: string)
    ensures SortedBy(EtablissementsByDomaine(t, d), EtabNomLe)
    ensures NoDup(EtablissementsByDomaine(t, d))
    ensures forall x :: x in EtablissementsByDomaine(t, d) <==>
      exists r :: r in FilieresByDomaine(t, d) && x == EtabDomaineRow(r.joined.etablissement, r.domaineNom)
  {
    var rows := FilieresByDomaine(t, d);
    var distinct := Dedup(Map(EtabDomaineOf, rows));
    var sorted := SortBy(distinct, EtabNomLe);
    assert EtablissementsByDomaine(t, d) == sorted;
    EtabNomLePreorder();
    SortBySorted(distinct, EtabNomLe);
    PermutationKeepsNoDup(distinct, sorted);
    MapMembers(EtabDomaineOf, rows);
    forall x ensures x in sorted <==> x in distinct {
      assert x in sorted <==> x in multiset(sorted);
      assert x in distinct <==> x in multiset(distinct);
    }
  }

}
