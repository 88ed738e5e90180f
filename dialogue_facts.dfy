/** What the chatbot's answers promise: the branch each handler takes, how
    many records it shows and in which order, which optional lines appear,
    and which slot it sets. */
module DialogueFacts {
  import opened Util
  import opened Text
  import opened Schema
  import opened Seeding
  import opened Queries
  import opened Dialogue

  // ---------------------------------------------------------------------
  // Helpers about the per-row functions

  lemma MentioningMembers(rows: seq<Joined>, domaine: string)
    ensures forall j :: j in Mentioning(rows, domaine) <==>
      j in rows && (Like(j.filiere.description, domaine) || Like(j.filiere.nom, domaine))
  {
  }

  lemma {:induction false} RankedShape(rows: seq<Joined>)
    ensures |Ranked(rows)| == |rows|
    ensures forall i :: 0 <= i < |rows| ==> Ranked(rows)[i] == SuggestionOf(rows[i], i + 1)
  {
    if rows != [] {
      RankedShape(rows[..|rows| - 1]);
    }
  }

  lemma {:induction false} EntriesShape(t: Tables, es: seq<Etablissement>)
    ensures |Entries(t, es)| == |es|
    ensures forall i :: 0 <= i < |es| ==>
      Entries(t, es)[i] == EntryOf(es[i], |FilieresByEtablissement(t, es[i].id)|)
  {
    if es != [] {
      EntriesShape(t, es[..|es| - 1]);
    }
  }

  // ---------------------------------------------------------------------
  // action_guide_orientation

  /** Without a `domaine` entity the handler asks for one, returns no event
      and reads nothing from the store. */
  lemma GuideOrientationWithoutDomaine(domaine: Option<string>, t: Tables)
    requires !Given(domaine)
    ensures GuideOrientation(domaine, t) == Reply([AskDomaine], [])
    ensures forall u :: GuideOrientation(domaine, u) == GuideOrientation(domaine, t)
  {
  }

  /** The domain query is empty exactly when no program that has an
      institution is linked to a domain whose name contains `x`. */
  lemma FilieresByDomaineEmpty(t: Tables, x: string)
    ensures FilieresByDomaine(t, x) == [] <==>
      forall f, l ::
        (f in t.filieres && l in t.liens && EtablissementById(t.etablissements, f.etablissementId).Some?) ==>
        !LinkMatches(t.domaines, x, f.id, l)
  {
    var rows := FilieresByDomaine(t, x);
    DomaineJoinMembers(t.filieres, t.etablissements, t.liens, t.domaines, x);
    if rows != [] {
      assert rows[0] in rows;
    }
    if exists f, l :: f in t.filieres && l in t.liens &&
        EtablissementById(t.etablissements, f.etablissementId).Some? && LinkMatches(t.domaines, x, f.id, l)
    {
      var f, l :| f in t.filieres && l in t.liens &&
        EtablissementById(t.etablissements, f.etablissementId).Some? && LinkMatches(t.domaines, x, f.id, l);
      var r := DomaineRow(Joined(f, EtablissementById(t.etablissements, f.etablissementId).value),
        DomaineById(t.domaines, l.domaineId).value.nom);
      assert r in rows;
    }
  }

  /** When the domain query finds nothing the handler apologises and lists
      every institution, in table order, with its description; no event. */
  lemma GuideOrientationFallback(domaine: Option<string>, t: Tables)
    requires Given(domaine) && FilieresByDomaine(t, domaine.value) == []
    ensures var r := GuideOrientation(domaine, t);
      && r == Reply(r.messages, [])
      && |r.messages| == 2 && r.messages[0] == NoFilieresForDomaine(domaine.value)
      && r.messages[1].EtablissementOverview?
      && |r.messages[1].summaries| == |t.etablissements|
      && forall i :: 0 <= i < |t.etablissements| ==>
           r.messages[1].summaries[i] == EtabSummary(t.etablissements[i].nom, t.etablissements[i].description)
  {
  }

  /** With results the handler echoes the domain and shows the first five
      rows in query order with their name, type, institution, duration and
      fees, an "n more" count exactly when there are more than five, the 🎯
      icon exactly for 'professionnelle' programs, and sets `domaine_interet`. */
  lemma GuideOrientationResults(domaine: Option<string>, t: Tables)
    requires Given(domaine) && FilieresByDomaine(t, domaine.value) != []
    ensures var rows := FilieresByDomaine(t, domaine.value);
      var r := GuideOrientation(domaine, t);
      && r == Reply(r.messages, [SlotSet(DomaineInteret, domaine.value)])
      && |r.messages| == 1 && r.messages[0].OrientationList?
      && var items := r.messages[0].orientation;
      && r.messages[0].domaine == domaine.value
      && |items| == Min(5, |rows|)
      && (forall i :: 0 <= i < |items| ==>
            && items[i].nom == rows[i].joined.filiere.nom
            && items[i].kind == rows[i].joined.filiere.kind
            && items[i].etablissementNom == rows[i].joined.etablissement.nom
            && items[i].duree == rows[i].joined.filiere.duree
            && items[i].frais == rows[i].joined.filiere.fraisInscription
            && (items[i].icon == Target <==> rows[i].joined.filiere.kind == PROFESSIONNELLE))
      && (r.messages[0].others.Some? <==> |rows| > 5)
      && (r.messages[0].others.Some? ==> r.messages[0].others.value == |rows| - 5)
  {
  }

  // ---------------------------------------------------------------------
  // action_detail_filiere

  /** On a lookup miss the handler offers up to three programs from the
      wider search (whose names cannot contain the fragment, so their
      descriptions do), or says it found nothing; no event either way. */
  lemma DetailFiliereMiss(filiere: Option<string>, t: Tables)
    requires Given(filiere) && FiliereDetails(t, filiere.value).None?
    ensures var q := filiere.value;
      var similar := SearchFilieres(t, q);
      var r := DetailFiliere(filiere, t);
      && r == Reply(r.messages, [])
      && |r.messages| == 1
      && (similar == [] ==> r.messages[0] == FiliereNotFound(q))
      && (similar != [] ==>
            && r.messages[0].DidYouMean? && r.messages[0].query == q
            && var names := r.messages[0].names;
            && |names| == Min(3, |similar|)
            && forall i :: 0 <= i < |names| ==>
                 names[i] == similar[i].filiere.nom && !Like(names[i], q) &&
                 Like(similar[i].filiere.description, q))
  {
    var q := filiere.value;
    var similar := SearchFilieres(t, q);
    FiliereDetailsFirstMatch(t, q);
    SearchFilieresExact(t, q);
    forall i | 0 <= i < |similar| ensures !Like(similar[i].filiere.nom, q) {
      assert similar[i] in similar;
    }
  }

  /** On a hit the card shows the stored program (whose name contains the
      fragment) with its capitalized type, duration, fees, description and
      institution; the débouchés, admission, contact and website lines appear
      exactly when that field is non-empty; and the stored name goes into
      `filiere_choisie`. */
  lemma DetailFiliereHit(filiere: Option<string>, t: Tables)
    requires Given(filiere) && FiliereDetails(t, filiere.value).Some?
    ensures var d := FiliereDetails(t, filiere.value).value;
      var f := d.filiere;
      var r := DetailFiliere(filiere, t);
      && f in t.filieres && Like(f.nom, filiere.value)
      && r == Reply(r.messages, [SlotSet(FiliereChoisie, f.nom)])
      && |r.messages| == 1 && r.messages[0].FiliereDetail?
      && var card := r.messages[0].card;
      && card.nom == f.nom && card.etablissementNom == d.etablissement.nom
      && card.kindLabel == Capitalize(f.kind) && |card.kindLabel| == |f.kind|
      && card.duree == f.duree && card.frais == f.fraisInscription && card.description == f.description
      && (card.debouches.Some? <==> f.debouches != []) && (card.debouches.Some? ==> card.debouches.value == f.debouches)
      && (card.admission.Some? <==> f.conditionsAdmission != [])
      && (card.admission.Some? ==> card.admission.value == f.conditionsAdmission)
      && (card.contact.Some? <==> d.etablissement.contact != [])
      && (card.contact.Some? ==> card.contact.value == d.etablissement.contact)
      && (card.siteWeb.Some? <==> d.etablissement.siteWeb != [])
      && (card.siteWeb.Some? ==> card.siteWeb.value == d.etablissement.siteWeb)
  {
    FiliereDetailsFirstMatch(t, filiere.value);
  }

  // ---------------------------------------------------------------------
  // action_comparer_filieres

  /** The program found is itself among the results of the keyword search,
      so "at most one result" means it alone matched. */
  lemma ComparedProgramIsFound(t: Tables, q: string)
    requires FiliereDetails(t, q).Some? && LastWord(FiliereDetails(t, q).value.filiere.nom).Some?
    ensures var d := FiliereDetails(t, q).value;
      d in SearchFilieres(t, LastWord(d.filiere.nom).value)
  {
    var d := FiliereDetails(t, q).value;
    var w := LastWord(d.filiere.nom).value;
    FiliereDetailsFirstMatch(t, q);
    LastWordIsLast(d.filiere.nom);
    var k :| OccursAt(d.filiere.nom, w, k);
    OccursLike(d.filiere.nom, w, k);
    SearchFilieresExact(t, w);
  }

  /** The comparison handler: a miss ends with a not-found message; a name
      without any word raises IndexError; otherwise it searches by the last
      word of the stored name and shows only the program's description when
      that search finds it alone, or up to three search results. */
  lemma ComparerFilieresReplies(filiere: Option<string>, t: Tables)
    requires Given(filiere)
    ensures var q := filiere.value;
      var r := ComparerFilieres(filiere, t);
      && (FiliereDetails(t, q).None? ==> r == Reply([ComparisonNotFound(q)], []))
      && (FiliereDetails(t, q).Some? ==>
            var d := FiliereDetails(t, q).value;
            && (LastWord(d.filiere.nom).None? <==> r.Raised?)
            && (r.Raised? ==>
                  && r == Raised([], IndexError)
                  && forall i :: 0 <= i < |d.filiere.nom| ==> IsSpace(d.filiere.nom[i]))
            && (r.Reply? ==>
                  var similar := SearchFilieres(t, LastWord(d.filiere.nom).value);
                  && r.events == [] && |r.messages| == 1
                  && (|similar| <= 1 ==>
                        similar == [d] && r.messages[0] == Description(d.filiere.nom, d.filiere.description))
                  && (|similar| > 1 ==>
                        && r.messages[0].Comparison?
                        && |r.messages[0].compared| == Min(COMPARISON_CAP, |similar|)
                        && forall i :: 0 <= i < |r.messages[0].compared| ==>
                             r.messages[0].compared[i] == ComparisonItemOf(similar[i]))))
  {
    var q := filiere.value;
    var r := ComparerFilieres(filiere, t);
    match FiliereDetails(t, q)
    case None =>
    case Some(d) =>
      LastWordIsLast(d.filiere.nom);
      match LastWord(d.filiere.nom)
      case None =>
        assert r == Raised([], IndexError);
      case Some(w) =>
        ComparedProgramIsFound(t, q);
        var similar := SearchFilieres(t, w);
        if |similar| <= 1 {
          assert similar == [similar[0]] && similar[0] == d;
          assert r == Reply([Description(d.filiere.nom, d.filiere.description)], []);
        } else {
          var items := Map(ComparisonItemOf, Prefix(similar, COMPARISON_CAP));
          assert r == Reply([Comparison(items)], []);
          assert 2 <= |items| <= 3;
        }
  }

  // ---------------------------------------------------------------------
  // action_suggest_filieres

  /** Without a `domaine_interet` slot the handler asks about interests,
      returns no event and reads nothing from the store. */
  lemma SuggestWithoutDomaine(domaine: Option<string>, preference: Option<string>, t: Tables)
    requires !Given(domaine)
    ensures SuggestFilieres(domaine, preference, t) == Reply([AskInterests], [])
    ensures forall u :: SuggestFilieres(domaine, preference, u) == SuggestFilieres(domaine, preference, t)
  {
  }

  /** With a preferred type the candidates are exactly the programs (with an
      institution) of that type whose name or description contains the
      domain, case-insensitively; without one they are the programs of the
      domain query. */
  lemma SuggestCandidatesExact(domaine: string, preference: Option<string>, t: Tables)
    ensures Given(preference) ==> forall j :: j in SuggestCandidates(domaine, preference, t) <==>
      && j.filiere in t.filieres
      && EtablissementById(t.etablissements, j.filiere.etablissementId) == Some(j.etablissement)
      && j.filiere.kind == preference.value
      && (Like(j.filiere.nom, domaine) || Like(j.filiere.description, domaine))
    ensures !Given(preference) ==> forall j :: j in SuggestCandidates(domaine, preference, t) <==>
      exists r :: r in FilieresByDomaine(t, domaine) && r.joined == j
  {
    if Given(preference) {
      FilieresByTypeExact(t, preference.value, None);
      MentioningMembers(FilieresByType(t, preference.value, None), domaine);
    } else {
      MapMembers(JoinedOf, FilieresByDomaine(t, domaine));
    }
  }

  /** The three first candidates by name, numbered from 1 and in ascending
      name order. */
  lemma TopThreeOrdered(candidates: seq<Joined>)
    ensures var items := Ranked(Prefix(SortBy(candidates, NomLe), SUGGESTION_CAP));
      && |items| == Min(3, |candidates|)
      && (forall i :: 0 <= i < |items| ==> items[i].rank == i + 1)
      && (forall i, j :: 0 <= i < j < |items| ==> StrLe(items[i].nom, items[j].nom))
  {
    var sorted := SortBy(candidates, NomLe);
    var top := Prefix(sorted, SUGGESTION_CAP);
    NomLePreorder();
    SortBySorted(candidates, NomLe);
    RankedShape(top);
    assert |multiset(sorted)| == |multiset(candidates)|;
    forall i, j | 0 <= i < j < |top| ensures StrLe(Ranked(top)[i].nom, Ranked(top)[j].nom) {
      assert NomLe(sorted[i], sorted[j]);
    }
  }

  /** Each suggestion is a candidate, shown with the first 100 characters of
      its description. */
  lemma TopThreeAreCandidates(candidates: seq<Joined>)
    ensures var items := Ranked(Prefix(SortBy(candidates, NomLe), SUGGESTION_CAP));
      forall i :: 0 <= i < |items| ==>
        exists c :: c in candidates && items[i] == SuggestionOf(c, i + 1) &&
          items[i].excerpt == Prefix(c.filiere.description, EXCERPT_LENGTH)
  {
    var sorted := SortBy(candidates, NomLe);
    var top := Prefix(sorted, SUGGESTION_CAP);
    RankedShape(top);
    forall i | 0 <= i < |top|
      ensures exists c ::
        c in candidates && Ranked(top)[i] == SuggestionOf(c, i + 1) &&
        Ranked(top)[i].excerpt == Prefix(c.filiere.description, EXCERPT_LENGTH)
    {
      assert sorted[i] in multiset(candidates);
    }
  }

  /** The suggestions render distinct candidates: a candidate is shown at
      most as often as it occurs among the candidates. */
  lemma TopThreeAreDistinct(candidates: seq<Joined>)
    ensures multiset(Prefix(SortBy(candidates, NomLe), SUGGESTION_CAP)) <= multiset(candidates)
  {
    var sorted := SortBy(candidates, NomLe);
    var top := Prefix(sorted, SUGGESTION_CAP);
    assert sorted == top + sorted[|top|..];
    assert multiset(sorted) == multiset(top) + multiset(sorted[|top|..]);
  }

  /** A candidate left out sorts after every suggestion shown. */
  lemma TopThreeAreSmallest(candidates: seq<Joined>)
    ensures var items := Ranked(Prefix(SortBy(candidates, NomLe), SUGGESTION_CAP));
      forall c :: c in candidates ==>
        (exists i :: 0 <= i < |items| && items[i] == SuggestionOf(c, i + 1)) ||
        (forall i :: 0 <= i < |items| ==> StrLe(items[i].nom, c.filiere.nom))
  {
    var sorted := SortBy(candidates, NomLe);
    var top := Prefix(sorted, SUGGESTION_CAP);
    var items := Ranked(top);
    NomLePreorder();
    SortBySorted(candidates, NomLe);
    RankedShape(top);
    forall c | c in candidates
      ensures (exists i :: 0 <= i < |items| && items[i] == SuggestionOf(c, i + 1)) ||
        (forall i :: 0 <= i < |items| ==> StrLe(items[i].nom, c.filiere.nom))
    {
      assert c in multiset(sorted);
      var k :| 0 <= k < |sorted| && sorted[k] == c;
      if k < |items| {
        assert items[k] == SuggestionOf(c, k + 1);
      } else {
        forall i | 0 <= i < |items| ensures StrLe(items[i].nom, c.filiere.nom) {
          assert NomLe(sorted[i], sorted[k]);
        }
      }
    }
  }

  /** With candidates, the suggestion reply is one message, echoing the
      domain and (only when set) the type preference, with no event. Its
      suggestions are min(3, n) distinct candidates ranked from 1 in
      ascending name order, each with the first 100 characters of its
      description, and no candidate left out sorts before one shown. */
  lemma SuggestionsRanked(domaine: Option<string>, preference: Option<string>, t: Tables)
    requires Given(domaine) && SuggestCandidates(domaine.value, preference, t) != []
    ensures var candidates := SuggestCandidates(domaine.value, preference, t);
      var r := SuggestFilieres(domaine, preference, t);
      && r.Reply? && r.events == [] && |r.messages| == 1 && r.messages[0].Suggestions?
      && r.messages[0].domaine == domaine.value && r.messages[0].preference == Shown(preference)
      && var items := r.messages[0].suggestions;
      && |items| == Min(3, |candidates|)
      && (forall i :: 0 <= i < |items| ==> items[i].rank == i + 1)
      && (forall i, j :: 0 <= i < j < |items| ==> StrLe(items[i].nom, items[j].nom))
      && (forall i :: 0 <= i < |items| ==>
            exists c :: c in candidates && items[i] == SuggestionOf(c, i + 1) &&
              items[i].excerpt == Prefix(c.filiere.description, EXCERPT_LENGTH))
      && (forall c :: c in candidates ==>
            (exists i :: 0 <= i < |items| && items[i] == SuggestionOf(c, i + 1)) ||
            (forall i :: 0 <= i < |items| ==> StrLe(items[i].nom, c.filiere.nom)))
      && (exists top: seq<Joined> ::
            && |top| == |items| && multiset(top) <= multiset(candidates)
            && forall i :: 0 <= i < |items| ==> items[i] == SuggestionOf(top[i], i + 1))
  {
    SuggestionsOrdered(domaine, preference, t);
    SuggestionsDistinct(domaine, preference, t);
  }

  /** The reply and the order, excerpt and minimality of its suggestions. */
  lemma SuggestionsOrdered(domaine: Option<string>, preference: Option<string>, t: Tables)
    requires Given(domaine) && SuggestCandidates(domaine.value, preference, t) != []
    ensures var candidates := SuggestCandidates(domaine.value, preference, t);
      var r := SuggestFilieres(domaine, preference, t);
      && r.Reply? && r.events == [] && |r.messages| == 1 && r.messages[0].Suggestions?
      && r.messages[0].domaine == domaine.value && r.messages[0].preference == Shown(preference)
      && var items := r.messages[0].suggestions;
      && |items| == Min(3, |candidates|)
      && (forall i :: 0 <= i < |items| ==> items[i].rank == i + 1)
      && (forall i, j :: 0 <= i < j < |items| ==> StrLe(items[i].nom, items[j].nom))
      && (forall i :: 0 <= i < |items| ==>
            exists c :: c in candidates && items[i] == SuggestionOf(c, i + 1) &&
              items[i].excerpt == Prefix(c.filiere.description, EXCERPT_LENGTH))
      && (forall c :: c in candidates ==>
            (exists i :: 0 <= i < |items| && items[i] == SuggestionOf(c, i + 1)) ||
            (forall i :: 0 <= i < |items| ==> StrLe(items[i].nom, c.filiere.nom)))
  {
    var candidates := SuggestCandidates(domaine.value, preference, t);
    TopThreeOrdered(candidates);
    TopThreeAreCandidates(candidates);
    TopThreeAreSmallest(candidates);
  }

  /** The suggestions shown render distinct candidates, in rank order. */
  lemma SuggestionsDistinct(domaine: Option<string>, preference: Option<string>, t: Tables)
    requires Given(domaine) && SuggestCandidates(domaine.value, preference, t) != []
    ensures var candidates := SuggestCandidates(domaine.value, preference, t);
      var r := SuggestFilieres(domaine, preference, t);
      && r.Reply? && |r.messages| == 1 && r.messages[0].Suggestions?
      && var items := r.messages[0].suggestions;
      exists top: seq<Joined> ::
        && |top| == |items| && multiset(top) <= multiset(candidates)
        && forall i :: 0 <= i < |items| ==> items[i] == SuggestionOf(top[i], i + 1)
  {
    var candidates := SuggestCandidates(domaine.value, preference, t);
    var top := Prefix(SortBy(candidates, NomLe), SUGGESTION_CAP);
    TopThreeAreDistinct(candidates);
    RankedShape(top);
  }

  // ---------------------------------------------------------------------
  // action_filieres_etablissement

  /** The institution chosen is the first, in list order, whose name contains
      the entity case-insensitively; none is chosen exactly when no name does. */
  lemma ChosenEtablissementIsFirst(es: seq<Etablissement>, x: string)
    ensures FindEtablissement(es, x).None? <==> forall e :: e in es ==> !Like(e.nom, x)
    ensures FindEtablissement(es, x).Some? ==>
      exists k :: 0 <= k < |es| && es[k] == FindEtablissement(es, x).value && Like(es[k].nom, x) &&
        forall i :: 0 <= i < k ==> !Like(es[i].nom, x)
  {
    FindEtablissementFirst(es, x);
    if FindEtablissement(es, x).None? {
      forall e | e in es ensures !Like(e.nom, x) {
        var i :| 0 <= i < |es| && es[i] == e;
      }
    }
  }

  /** Once the institution is found, its programs are split into a
      'professionnelle' group and a 'classique' group in query order; the
      total counts every row, and equals the two groups together when every
      program has one of the two types; the contact and website are printed
      as stored; `dernier_etablissement` is set. */
  lemma FilieresOfSplit(e: Etablissement, t: Tables)
    requires FilieresByEtablissement(t, e.id) != []
    ensures var rows := FilieresByEtablissement(t, e.id);
      var r := FilieresOf(e, t);
      && r == Reply(r.messages, [SlotSet(DernierEtablissement, e.nom)])
      && |r.messages| == 1 && r.messages[0].EtablissementFilieres?
      && var m := r.messages[0];
      && m.nom == e.nom && m.total == |rows| && m.contact == e.contact && m.siteWeb == e.siteWeb
      && m.professionnelles == Map(ProgramLineOf, Filter(IsProfessionnelle, rows))
      && m.classiques == Map(ProgramLineOf, Filter(IsClassique, rows))
      && (forall p :: p in m.professionnelles <==>
            exists j :: j in rows && j.filiere.kind == PROFESSIONNELLE && p == ProgramLineOf(j))
      && (forall p :: p in m.classiques <==>
            exists j :: j in rows && j.filiere.kind == CLASSIQUE && p == ProgramLineOf(j))
      && |m.professionnelles| + |m.classiques| <= m.total
      && (KnownKinds(t.filieres) ==> |m.professionnelles| + |m.classiques| == m.total)
  {
    var rows := FilieresByEtablissement(t, e.id);
    var pro, cla := Filter(IsProfessionnelle, rows), Filter(IsClassique, rows);
    assert FilieresOf(e, t) == Reply([EtablissementFilieres(e.nom, Map(ProgramLineOf, pro), Map(ProgramLineOf, cla),
      |rows|, e.contact, e.siteWeb)], [SlotSet(DernierEtablissement, e.nom)]);
    ProgramGroups(rows);
    if KnownKinds(t.filieres) {
      KnownKindsRows(e, t);
    }
  }

  /** The two type groups of some rows: each holds exactly the lines of the
      rows of its type, and together they cover at most all rows, exactly
      all when every row has one of the two types. */
  lemma ProgramGroups(rows: seq<Joined>)
    ensures var pro := Map(ProgramLineOf, Filter(IsProfessionnelle, rows));
      var cla := Map(ProgramLineOf, Filter(IsClassique, rows));
      && (forall p :: p in pro <==>
            exists j :: j in rows && j.filiere.kind == PROFESSIONNELLE && p == ProgramLineOf(j))
      && (forall p :: p in cla <==>
            exists j :: j in rows && j.filiere.kind == CLASSIQUE && p == ProgramLineOf(j))
      && |pro| + |cla| <= |rows|
      && ((forall j :: j in rows ==> IsProfessionnelle(j) || IsClassique(j)) ==> |pro| + |cla| == |rows|)
  {
    MapMembers(ProgramLineOf, Filter(IsProfessionnelle, rows));
    MapMembers(ProgramLineOf, Filter(IsClassique, rows));
    FilterSplit(IsProfessionnelle, IsClassique, rows);
  }

  /** When every stored program has a known type, so does every row of an
      institution's programs. */
  lemma KnownKindsRows(e: Etablissement, t: Tables)
    requires KnownKinds(t.filieres)
    ensures forall j :: j in FilieresByEtablissement(t, e.id) ==> IsProfessionnelle(j) || IsClassique(j)
  {
    JoinWhereMembers(t.filieres, t.etablissements, EtabIs(e.id));
    forall j | j in FilieresByEtablissement(t, e.id) ensures IsProfessionnelle(j) || IsClassique(j) {
      var i :| 0 <= i < |t.filieres| && t.filieres[i] == j.filiere;
    }
  }

  /** An institution with no program gets its own apology and no event. */
  lemma FilieresOfEmpty(e: Etablissement, t: Tables)
    requires FilieresByEtablissement(t, e.id) == []
    ensures FilieresOf(e, t) == Reply([NoFilieresAt(e.nom)], [])
  {
  }

  /** Finding, as written: a name no institution matches makes the handler
      raise NameError right after its not-found message. */
  lemma FollowupRaisesNameError(etablissement: Option<string>, t: Tables)
    requires Given(etablissement)
    requires forall e :: e in t.etablissements ==> !Like(e.nom, etablissement.value)
    ensures FilieresEtablissementAsWritten(etablissement, t) ==
      Raised([EtablissementNotFound(etablissement.value)], NameError)
  {
    ChosenEtablissementIsFirst(t.etablissements, etablissement.value);
  }

  /** An input that shows it: any name asked of a store with no institution. */
  lemma FollowupRaisesOnEmptyStore()
    ensures FilieresEtablissementAsWritten(Some("ENSPD"), EMPTY) ==
      Raised([EtablissementNotFound("ENSPD")], NameError)
  {
    FollowupRaisesNameError(Some("ENSPD"), EMPTY);
  }

  /** Corrected: the miss hands over to `action_liste_etablissements`, and
      on every other input the two versions agree. */
  lemma FollowupHandsOver(etablissement: Option<string>, t: Tables)
    ensures var r := FilieresEtablissement(etablissement, t);
      && (Given(etablissement) && (forall e :: e in t.etablissements ==> !Like(e.nom, etablissement.value)) ==>
            r == Reply([EtablissementNotFound(etablissement.value)], [FollowupAction(LISTE_ETABLISSEMENTS)]))
      && (FilieresEtablissementAsWritten(etablissement, t).Raised? <==>
            r.Reply? && r.events == [FollowupAction(LISTE_ETABLISSEMENTS)])
      && (FilieresEtablissementAsWritten(etablissement, t).Reply? ==> FilieresEtablissementAsWritten(etablissement, t) == r)
  {
    if Given(etablissement) {
      ChosenEtablissementIsFirst(t.etablissements, etablissement.value);
    }
  }

  // ---------------------------------------------------------------------
  // The listings without input

  /** The institution list apologises exactly when there is no institution;
      otherwise it has one entry per institution in table order, with the
      program count shown only when positive and the institution's own
      contact and website lines only when non-empty. */
  lemma ListeEtablissementsEntries(t: Tables)
    ensures var r := ListeEtablissements(t);
      && r == Reply(r.messages, []) && |r.messages| == 1
      && (r.messages[0] == EtablissementsUnavailable <==> t.etablissements == [])
      && (t.etablissements != [] ==>
            && r.messages[0].EtablissementList?
            && var entries := r.messages[0].entries;
            && |entries| == |t.etablissements|
            && forall i :: 0 <= i < |entries| ==>
                 var e := t.etablissements[i];
                 var n := |FilieresByEtablissement(t, e.id)|;
                 && entries[i].nom == e.nom && entries[i].kind == e.kind && entries[i].description == e.description
                 && (entries[i].filiereCount.Some? <==> n > 0)
                 && (entries[i].filiereCount.Some? ==> entries[i].filiereCount.value == n)
                 && (entries[i].contact.Some? <==> e.contact != [])
                 && (entries[i].contact.Some? ==> entries[i].contact.value == e.contact)
                 && (entries[i].siteWeb.Some? <==> e.siteWeb != [])
                 && (entries[i].siteWeb.Some? ==> entries[i].siteWeb.value == e.siteWeb))
  {
    EntriesShape(t, t.etablissements);
  }

  /** The enrolment guide lists the steps in `etape` order with the details
      line only when non-empty, every document in table order marked 🔴
      exactly when required, and the dates in start order with the end shown
      exactly when it is set and differs from the start. */
  lemma GuidePreinscriptionShows(t: Tables)
    ensures var r := GuidePreinscription(t);
      && r == Reply(r.messages, []) && |r.messages| == 1 && r.messages[0].PreinscriptionGuide?
      && var m := r.messages[0];
      && multiset(Processus(t)) == multiset(t.etapes)
      && |m.steps| == |t.etapes|
      && (forall i, j :: 0 <= i < j < |m.steps| ==> m.steps[i].etape <= m.steps[j].etape)
      && (forall i :: 0 <= i < |m.steps| ==>
            && m.steps[i].etape == Processus(t)[i].etape
            && m.steps[i].description == Processus(t)[i].description
            && (m.steps[i].details.Some? <==> Processus(t)[i].details != [])
            && (m.steps[i].details.Some? ==> m.steps[i].details.value == Processus(t)[i].details))
      && |m.documents| == |t.documents|
      && (forall i :: 0 <= i < |m.documents| ==>
            m.documents[i].typeDocument == t.documents[i].typeDocument &&
            (m.documents[i].mark == Required <==> t.documents[i].obligatoire))
      && multiset(DatesImportantes(t)) == multiset(t.dates)
      && |m.dates| == |t.dates|
      && (forall i, j :: 0 <= i < j < |m.dates| ==> StrLe(m.dates[i].line.debut, m.dates[j].line.debut))
      && (forall i :: 0 <= i < |m.dates| ==>
            var d := DatesImportantes(t)[i];
            && m.dates[i].line.evenement == d.evenement && m.dates[i].line.debut == d.dateDebut
            && m.dates[i].annee == d.anneeAcademique
            && (m.dates[i].line.fin.Some? <==> d.dateFin != [] && d.dateFin != d.dateDebut)
            && (m.dates[i].line.fin.Some? ==> m.dates[i].line.fin.value == d.dateFin))
  {
    ProcessusOrdered(t);
    DatesOrdered(t);
    assert |multiset(Processus(t))| == |multiset(t.etapes)|;
    assert |multiset(DatesImportantes(t))| == |multiset(t.dates)|;
  }

  /** Practical information lists exactly the names of the required
      documents in table order, and every date of the table in start order
      with its end when set and different from the start. */
  lemma InformationsPratiquesShows(t: Tables)
    ensures var r := InformationsPratiques(t);
      && r == Reply(r.messages, []) && |r.messages| == 1 && r.messages[0].PracticalInfo?
      && var m := r.messages[0];
      && m.required == Map(DocNameOf, Filter(IsObligatoire, t.documents))
      && (forall n :: n in m.required <==> exists d :: d in t.documents && d.obligatoire && n == d.typeDocument)
      && multiset(DatesImportantes(t)) == multiset(t.dates)
      && |m.calendar| == |t.dates|
      && (forall i, j :: 0 <= i < j < |m.calendar| ==> StrLe(m.calendar[i].debut, m.calendar[j].debut))
      && (forall i :: 0 <= i < |m.calendar| ==>
            var d := DatesImportantes(t)[i];
            && m.calendar[i].evenement == d.evenement && m.calendar[i].debut == d.dateDebut
            && (m.calendar[i].fin.Some? <==> d.dateFin != [] && d.dateFin != d.dateDebut)
            && (m.calendar[i].fin.Some? ==> m.calendar[i].fin.value == d.dateFin))
  {
    MapMembers(DocNameOf, Filter(IsObligatoire, t.documents));
    DatesOrdered(t);
    assert |multiset(DatesImportantes(t))| == |multiset(t.dates)|;
  }

  /** The Faculté des Sciences listings take every program of the type whose
      institution's name merely starts with "Faculté des Sciences". */
  lemma ScienceListingTakesLongerNames(kind: string, t: Tables, j: Joined, suffix: string)
    requires j.filiere in t.filieres && j.filiere.kind == kind
    requires EtablissementById(t.etablissements, j.filiere.etablissementId) == Some(j.etablissement)
    requires j.etablissement.nom == FACULTE_DES_SCIENCES + suffix
    ensures CategoryItemOf(j) in ScienceListing(kind, t).messages[0].programs
  {
    LikeOfExtension(FACULTE_DES_SCIENCES, suffix);
    FilieresByTypeExact(t, kind, Some(FACULTE_DES_SCIENCES));
    MapMembers(CategoryItemOf, FilieresByType(t, kind, Some(FACULTE_DES_SCIENCES)));
  }

  lemma SeededDroitPrive()
    ensures var t := Populate(EMPTY);
      && |t.filieres| == 9 && |t.etablissements| == 5
      && t.filieres[7] == SEED_AUTRES_FILIERES[1].(id := 8)
      && t.etablissements[2] == SEED_ETABLISSEMENTS[2].(id := 3)
  {
    var sciences := Numbered(SEED_FILIERES_SCIENCES, 1, FiliereWithId);
    assert Populate(EMPTY).filieres == sciences + Numbered(SEED_AUTRES_FILIERES, 7, FiliereWithId);
  }

  /** A store holding the seeded Droit Privé program and its faculty lists
      that program in the classical science listing. */
  lemma DroitPriveListed(t: Tables)
    requires |t.filieres| > 7 && t.filieres[7] == SEED_AUTRES_FILIERES[1].(id := 8)
    requires |t.etablissements| > 2 && t.etablissements[2] == SEED_ETABLISSEMENTS[2].(id := 3)
    requires forall i :: 0 <= i < |t.etablissements| ==> t.etablissements[i].id == i + 1
    ensures CategoryItemOf(Joined(t.filieres[7], t.etablissements[2])) in FilieresClassiquesScience(t).messages[0].programs
  {
    var f := t.filieres[7];
    var e := t.etablissements[2];
    assert f in t.filieres;
    assert e.nom == FACULTE_DES_SCIENCES + " Juridiques et Politiques";
    EtablissementByIdPositional(t.etablissements, 1, 3);
    ScienceListingTakesLongerNames(CLASSIQUE, t, Joined(f, e), " Juridiques et Politiques");
  }

  /** So the seeded store's classical science listing shows Droit Privé, a
      program of the Faculté des Sciences Juridiques et Politiques. */
  lemma ClassiqueScienceListsDroitPrive()
    ensures var t := Populate(EMPTY);
      && |t.filieres| == 9 && |t.etablissements| == 5
      && t.filieres[7].nom == "Droit Privé" && t.filieres[7].kind == CLASSIQUE
      && t.etablissements[2].nom == "Faculté des Sciences Juridiques et Politiques"
      && CategoryItemOf(Joined(t.filieres[7], t.etablissements[2])) in FilieresClassiquesScience(t).messages[0].programs
  {
    SeededDroitPrive();
    PopulateKeepsWellFormed(EMPTY);
    DroitPriveListed(Populate(EMPTY));
  }
}
