/** `UniversityDatabase`: the seven tables of the store, the seeding step
    run when the store is opened, and the getters. Each getter fetches its
    rows one by one, as the cursor loop does, and its result is the query
    function of the same name over the current tables. */
module Database {
  import opened Util
  import opened Text
  import opened Schema
  import opened Seeding
  import opened Queries

  /** Stable insertion sort, one row at a time: the `ORDER BY` of a getter. */
  method SortRows<T>(s: seq<T>, le: (T, T) -> bool) returns (r: seq<T>)
    ensures r == SortBy(s, le)
  {
    r := [];
    for i := 0 to |s|
      invariant r == SortBy(s[..i], le)
    {
      assert s[..i + 1][..i] == s[..i];
      r := Insert(s[i], r, le);
    }
    assert s[..|s|] == s;
  }

  class UniversityDatabase {
    var etablissements: seq<Etablissement>
    var filieres: seq<Filiere>
    var domaines: seq<Domaine>
    var liens: seq<Lien>
    var etapes: seq<Etape>
    var documents: seq<Document>
    var dates: seq<DateImportante>

    function State(): Tables
      reads this
    {
      Tables(etablissements, filieres, domaines, liens, etapes, documents, dates)
    }

    ghost predicate Valid()
      reads this
    {
      WellFormed(State())
    }

    /** Opens the store whose file already holds `existing` (all tables empty
        for a new file) and seeds it. */
    constructor (existing: Tables)
      ensures State() == Populate(existing)
      ensures WellFormed(existing) ==> Valid()
    {
      etablissements := existing.etablissements;
      filieres := existing.filieres;
      domaines := existing.domaines;
      liens := existing.liens;
      etapes := existing.etapes;
      documents := existing.documents;
      dates := existing.dates;
      new;
      PopulateSampleData();
    }

    /** `populate_sample_data`: returns at once when `etablissements` has a
        row, otherwise runs every `executemany` of the sample data in turn. */
    method PopulateSampleData()
      modifies this
      ensures State() == Populate(old(State()))
      ensures old(Valid()) ==> Valid()
    {
      if Valid() {
        PopulateKeepsWellFormed(State());
      }
      if |etablissements| > 0 {
        return;
      }
      InsertEtablissements(SEED_ETABLISSEMENTS);
      InsertDomaines(SEED_DOMAINES);
      InsertFilieres(SEED_FILIERES_SCIENCES);
      InsertFilieres(SEED_AUTRES_FILIERES);
      InsertOrIgnoreLiens(SEED_LIENS);
      InsertEtapes(SEED_ETAPES);
      InsertDocuments(SEED_DOCUMENTS);
      InsertDates(SEED_DATES);
    }

    method InsertEtablissements(rows: seq<Etablissement>)
      modifies this`etablissements
      ensures etablissements == old(etablissements) + Numbered(rows, |old(etablissements)| + 1, EtablissementWithId)
    {
      var base := |etablissements| + 1;
      for i := 0 to |rows|
        invariant etablissements == old(etablissements) + Numbered(rows[..i], base, EtablissementWithId)
      {
        assert Numbered(rows[..i + 1], base, EtablissementWithId) ==
          Numbered(rows[..i], base, EtablissementWithId) + [rows[i].(id := base + i)];
        etablissements := etablissements + [rows[i].(id := |etablissements| + 1)];
      }
      assert rows[..|rows|] == rows;
    }

    method InsertDomaines(rows: seq<Domaine>)
      modifies this`domaines
      ensures domaines == old(domaines) + Numbered(rows, |old(domaines)| + 1, DomaineWithId)
    {
      var base := |domaines| + 1;
      for i := 0 to |rows|
        invariant domaines == old(domaines) + Numbered(rows[..i], base, DomaineWithId)
      {
        assert Numbered(rows[..i + 1], base, DomaineWithId) == Numbered(rows[..i], base, DomaineWithId) + [rows[i].(id := base + i)];
        domaines := domaines + [rows[i].(id := |domaines| + 1)];
      }
      assert rows[..|rows|] == rows;
    }

    method InsertFilieres(rows: seq<Filiere>)
      modifies this`filieres
      ensures filieres == old(filieres) + Numbered(rows, |old(filieres)| + 1, FiliereWithId)
    {
      var base := |filieres| + 1;
      for i := 0 to |rows|
        invariant filieres == old(filieres) + Numbered(rows[..i], base, FiliereWithId)
      {
        assert Numbered(rows[..i + 1], base, FiliereWithId) == Numbered(rows[..i], base, FiliereWithId) + [rows[i].(id := base + i)];
        filieres := filieres + [rows[i].(id := |filieres| + 1)];
      }
      assert rows[..|rows|] == rows;
    }

    /** `INSERT OR IGNORE INTO filiere_domaines`: a pair already in the table is skipped. */
    method InsertOrIgnoreLiens(rows: seq<Lien>)
      modifies this`liens
      ensures liens == InsertOrIgnore(old(liens), rows)
    {
      for i := 0 to |rows|
        invariant liens == InsertOrIgnore(old(liens), rows[..i])
      {
        assert rows[..i + 1][..i] == rows[..i];
        if rows[i] !in liens {
          liens := liens + [rows[i]];
        }
      }
      assert rows[..|rows|] == rows;
    }

    method InsertEtapes(rows: seq<Etape>)
      modifies this`etapes
      ensures etapes == old(etapes) + Numbered(rows, |old(etapes)| + 1, EtapeWithId)
    {
      var base := |etapes| + 1;
      for i := 0 to |rows|
        invariant etapes == old(etapes) + Numbered(rows[..i], base, EtapeWithId)
      {
        assert Numbered(rows[..i + 1], base, EtapeWithId) == Numbered(rows[..i], base, EtapeWithId) + [rows[i].(id := base + i)];
        etapes := etapes + [rows[i].(id := |etapes| + 1)];
      }
      assert rows[..|rows|] == rows;
    }

    method InsertDocuments(rows: seq<Document>)
      modifies this`documents
      ensures documents == old(documents) + Numbered(rows, |old(documents)| + 1, DocumentWithId)
    {
      var base := |documents| + 1;
      for i := 0 to |rows|
        invariant documents == old(documents) + Numbered(rows[..i], base, DocumentWithId)
      {
        assert Numbered(rows[..i + 1], base, DocumentWithId) == Numbered(rows[..i], base, DocumentWithId) + [rows[i].(id := base + i)];
        documents := documents + [rows[i].(id := |documents| + 1)];
      }
      assert rows[..|rows|] == rows;
    }

    method InsertDates(rows: seq<DateImportante>)
      modifies this`dates
      ensures dates == old(dates) + Numbered(rows, |old(dates)| + 1, DateWithId)
    {
      var base := |dates| + 1;
      for i := 0 to |rows|
        invariant dates == old(dates) + Numbered(rows[..i], base, DateWithId)
      {
        assert Numbered(rows[..i + 1], base, DateWithId) == Numbered(rows[..i], base, DateWithId) + [rows[i].(id := base + i)];
        dates := dates + [rows[i].(id := |dates| + 1)];
      }
      assert rows[..|rows|] == rows;
    }

    // -------------------------------------------------------------------
    // Lookups behind the joins

    method LookupEtablissement(id: int) returns (r: Option<Etablissement>)
      ensures r == EtablissementById(etablissements, id)
    {
      var i := 0;
      while i < |etablissements|
        invariant 0 <= i <= |etablissements|
        invariant EtablissementById(etablissements, id) == EtablissementById(etablissements[i..], id)
      {
        if etablissements[i].id == id {
          return Some(etablissements[i]);
        }
        assert etablissements[i..][1..] == etablissements[i + 1..];
        i := i + 1;
      }
      return None;
    }

    method LookupDomaine(id: int) returns (r: Option<Domaine>)
      ensures r == DomaineById(domaines, id)
    {
      var i := 0;
      while i < |domaines|
        invariant 0 <= i <= |domaines|
        invariant DomaineById(domaines, id) == DomaineById(domaines[i..], id)
      {
        if domaines[i].id == id {
          return Some(domaines[i]);
        }
        assert domaines[i..][1..] == domaines[i + 1..];
        i := i + 1;
      }
      return None;
    }

    /** The cursor loop over `SELECT f.*, e.nom ... WHERE w`. */
    method Select(w: Where) returns (rows: seq<Joined>)
      ensures rows == JoinWhere(filieres, etablissements, w)
    {
      rows := [];
      for i := 0 to |filieres|
        invariant rows == JoinWhere(filieres[..i], etablissements, w)
      {
        assert filieres[..i + 1][..i] == filieres[..i];
        var f := filieres[i];
        var e := LookupEtablissement(f.etablissementId);
        if e.Some? && Holds(w, f, e.value) {
          rows := rows + [Joined(f, e.value)];
        }
      }
      assert filieres[..|filieres|] == filieres;
    }

    // -------------------------------------------------------------------
    // The getters

    method GetFilieresByEtablissement(etablissementId: int) returns (rows: seq<Joined>)
      ensures rows == FilieresByEtablissement(State(), etablissementId)
    {
      rows := Select(EtabIs(etablissementId));
    }

    /** Stops at the first row, as `fetchone` does. */
    method GetFiliereDetails(filiereNom: string) returns (r: Option<Joined>)
      ensures r == FiliereDetails(State(), filiereNom)
    {
      var w := NameLike(filiereNom);
      var i := 0;
      while i < |filieres|
        invariant 0 <= i <= |filieres|
        invariant FirstJoin(filieres, etablissements, w) == FirstJoin(filieres[i..], etablissements, w)
      {
        var f := filieres[i];
        var e := LookupEtablissement(f.etablissementId);
        if e.Some? && Holds(w, f, e.value) {
          return Some(Joined(f, e.value));
        }
        assert filieres[i..][1..] == filieres[i + 1..];
        i := i + 1;
      }
      return None;
    }

    /** The rows one joined program gets from the link table. */
    method LinksOf(j: Joined, domaine: string) returns (rows: seq<DomaineRow>)
      ensures rows == LinkRows(j, liens, domaines, domaine)
    {
      rows := [];
      for k := 0 to |liens|
        invariant rows == LinkRows(j, liens[..k], domaines, domaine)
      {
        assert liens[..k + 1][..k] == liens[..k];
        var l := liens[k];
        if l.filiereId == j.filiere.id {
          var dm := LookupDomaine(l.domaineId);
          if dm.Some? && Like(dm.value.nom, domaine) {
            rows := rows + [DomaineRow(j, dm.value.nom)];
          }
        }
      }
      assert liens[..|liens|] == liens;
    }

    method GetFilieresByDomaine(domaine: string) returns (rows: seq<DomaineRow>)
      ensures rows == FilieresByDomaine(State(), domaine)
    {
      rows := [];
      for i := 0 to |filieres|
        invariant rows == DomaineJoin(filieres[..i], etablissements, liens, domaines, domaine)
      {
        assert filieres[..i + 1][..i] == filieres[..i];
        var f := filieres[i];
        var e := LookupEtablissement(f.etablissementId);
        if e.Some? {
          var mine := LinksOf(Joined(f, e.value), domaine);
          rows := rows + mine;
        }
      }
      assert filieres[..|filieres|] == filieres;
    }

    method GetFilieresByType(typeFiliere: string, etablissement: Option<string>) returns (rows: seq<Joined>)
      ensures rows == FilieresByType(State(), typeFiliere, etablissement)
    {
      rows := Select(TypeIs(typeFiliere, etablissement));
    }

    method GetEtablissements() returns (rows: seq<Etablissement>)
      ensures rows == State().etablissements
    {
      rows := [];
      for i := 0 to |etablissements|
        invariant rows == etablissements[..i]
      {
        rows := rows + [etablissements[i]];
      }
    }

    method GetProcessusPreinscription() returns (rows: seq<Etape>)
      ensures rows == Processus(State())
    {
      rows := SortRows(etapes, EtapeLe);
    }

    method GetDocumentsRequis() returns (rows: seq<Document>)
      ensures rows == State().documents
    {
      rows := [];
      for i := 0 to |documents|
        invariant rows == documents[..i]
      {
        rows := rows + [documents[i]];
      }
    }

    method GetDatesImportantes() returns (rows: seq<DateImportante>)
      ensures rows == DatesImportantes(State())
    {
      rows := SortRows(dates, DateLe);
    }

    method SearchFilieres(query: string) returns (rows: seq<Joined>)
      ensures rows == Queries.SearchFilieres(State(), query)
    {
      rows := Select(NameOrDescriptionLike(query));
    }

    /** DISTINCT over the projected rows, then ORDER BY the institution's name. */
    method GetEtablissementsByDomaine(domaine: string) returns (rows: seq<EtabDomaineRow>)
      ensures rows == EtablissementsByDomaine(State(), domaine)
    {
      var joined := GetFilieresByDomaine(domaine);
      var distinct: seq<EtabDomaineRow> := [];
      for i := 0 to |joined|
        invariant distinct == Dedup(Map(EtabDomaineOf, joined[..i]))
      {
        assert joined[..i + 1][..i] == joined[..i];
        assert Map(EtabDomaineOf, joined[..i + 1])[..i] == Map(EtabDomaineOf, joined[..i]);
        var x := EtabDomaineOf(joined[i]);
        if x !in distinct {
          distinct := distinct + [x];
        }
      }
      assert joined[..|joined|] == joined;
      rows := SortRows(distinct, EtabNomLe);
    }
  }
}
