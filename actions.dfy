/** The `run` bodies of the custom actions, over a store object. Each
    handler queries the store through its getters, builds the lines of its
    message in a loop over the rows, and answers exactly what the
    corresponding function of `Dialogue` says for the store's tables. */
module Actions {
  import opened Util
  import opened Text
  import opened Schema
  import opened Queries
  import opened Database
  import opened Dialogue

  /** `for row in rows: response += ...`: one rendered line per row, in order. */
  method Render<A, B>(show: A -> B, rows: seq<A>) returns (lines: seq<B>)
    ensures lines == Map(show, rows)
  {
    lines := [];
    for i := 0 to |rows|
      invariant lines == Map(show, rows[..i])
    {
      assert rows[..i + 1][..i] == rows[..i];
      lines := lines + [show(rows[i])];
    }
    assert rows[..|rows|] == rows;
  }

  method ActionGuideOrientation(db: UniversityDatabase, domaine: Option<string>) returns (reply: Reply)
    ensures reply == GuideOrientation(domaine, db.State())
  {
    if !Given(domaine) {
      return Reply([AskDomaine], []);
    }
    var x := domaine.value;
    var filieres := db.GetFilieresByDomaine(x);
    if filieres == [] {
      var etablissements := db.GetEtablissements();
      var summaries := Render(SummaryOf, etablissements);
      return Reply([NoFilieresForDomaine(x), EtablissementOverview(summaries)], []);
    }
    var items := Render(OrientationItemOf, Prefix(filieres, ORIENTATION_CAP));
    var others := if |filieres| > ORIENTATION_CAP then Some(|filieres| - ORIENTATION_CAP) else None;
    return Reply([OrientationList(x, items, others)], [SlotSet(DomaineInteret, x)]);
  }

  method ActionDetailFiliere(db: UniversityDatabase, filiere: Option<string>) returns (reply: Reply)
    ensures reply == DetailFiliere(filiere, db.State())
  {
    if !Given(filiere) {
      return Reply([AskFiliere], []);
    }
    var q := filiere.value;
    var details := db.GetFiliereDetails(q);
    if details.None? {
      var similar := db.SearchFilieres(q);
      if similar != [] {
        var names := Render(NomOf, Prefix(similar, SIMILAR_CAP));
        return Reply([DidYouMean(q, names)], []);
      }
      return Reply([FiliereNotFound(q)], []);
    }
    var d := details.value;
    return Reply([FiliereDetail(CardOf(d))], [SlotSet(FiliereChoisie, d.filiere.nom)]);
  }

  method ActionListeEtablissements(db: UniversityDatabase) returns (reply: Reply)
    ensures reply == ListeEtablissements(db.State())
  {
    var etablissements := db.GetEtablissements();
    if etablissements == [] {
      return Reply([EtablissementsUnavailable], []);
    }
    var entries: seq<EtabEntry> := [];
    for i := 0 to |etablissements|
      invariant entries == Entries(db.State(), etablissements[..i])
    {
      assert etablissements[..i + 1][..i] == etablissements[..i];
      var e := etablissements[i];
      var filieres := db.GetFilieresByEtablissement(e.id);
      entries := entries + [EntryOf(e, |filieres|)];
    }
    assert etablissements[..|etablissements|] == etablissements;
    return Reply([EtablissementList(entries)], []);
  }

  method ActionGuidePreinscription(db: UniversityDatabase) returns (reply: Reply)
    ensures reply == GuidePreinscription(db.State())
  {
    var processus := db.GetProcessusPreinscription();
    var documents := db.GetDocumentsRequis();
    var dates := db.GetDatesImportantes();
    var steps := Render(StepOf, processus);
    var docs := Render(DocLineOf, documents);
    var calendar := Render(GuideDateOf, dates);
    return Reply([PreinscriptionGuide(steps, docs, calendar)], []);
  }

  method ActionFiliereProfessionnelleScience(db: UniversityDatabase) returns (reply: Reply)
    ensures reply == FilieresProfessionnellesScience(db.State())
  {
    var filieres := db.GetFilieresByType(PROFESSIONNELLE, Some(FACULTE_DES_SCIENCES));
    var items := Render(CategoryItemOf, filieres);
    return Reply([CategoryListing(PROFESSIONNELLE, items)], []);
  }

  method ActionFiliereClassiqueScience(db: UniversityDatabase) returns (reply: Reply)
    ensures reply == FilieresClassiquesScience(db.State())
  {
    var filieres := db.GetFilieresByType(CLASSIQUE, Some(FACULTE_DES_SCIENCES));
    var items := Render(CategoryItemOf, filieres);
    return Reply([CategoryListing(CLASSIQUE, items)], []);
  }

  method ActionComparerFiliere(db: UniversityDatabase, filiere: Option<string>) returns (reply: Reply)
    ensures reply == ComparerFilieres(filiere, db.State())
  {
    if !Given(filiere) {
      return Reply([AskComparison], []);
    }
    var q := filiere.value;
    var details := db.GetFiliereDetails(q);
    if details.None? {
      return Reply([ComparisonNotFound(q)], []);
    }
    var d := details.value;
    var keyword := LastWord(d.filiere.nom);
    if keyword.None? {
      return Raised([], IndexError);
    }
    var similaires := db.SearchFilieres(keyword.value);
    if |similaires| <= 1 {
      return Reply([Description(d.filiere.nom, d.filiere.description)], []);
    }
    var items := Render(ComparisonItemOf, Prefix(similaires, COMPARISON_CAP));
    return Reply([Comparison(items)], []);
  }

  method ActionSuggestFiliere(db: UniversityDatabase, domaine: Option<string>, preference: Option<string>)
    returns (reply: Reply)
    ensures reply == SuggestFilieres(domaine, preference, db.State())
  {
    if !Given(domaine) {
      return Reply([AskInterests], []);
    }
    var x := domaine.value;
    var filieres: seq<Joined>;
    if Given(preference) {
      var typed := db.GetFilieresByType(preference.value, None);
      filieres := Mentioning(typed, x);
    } else {
      var rows := db.GetFilieresByDomaine(x);
      filieres := Map(JoinedOf, rows);
    }
    if filieres == [] {
      return Reply([NoSuggestions], []);
    }
    var top := Prefix(SortBy(filieres, NomLe), SUGGESTION_CAP);
    var items: seq<Suggestion> := [];
    for i := 0 to |top|
      invariant items == Ranked(top[..i])
    {
      assert top[..i + 1][..i] == top[..i];
      items := items + [SuggestionOf(top[i], i + 1)];
    }
    assert top[..|top|] == top;
    return Reply([Suggestions(x, Shown(preference), items)], []);
  }

  method ActionInformationsPratiques(db: UniversityDatabase) returns (reply: Reply)
    ensures reply == InformationsPratiques(db.State())
  {
    var dates := db.GetDatesImportantes();
    var all := db.GetDocumentsRequis();
    var documents := Filter(IsObligatoire, all);
    var calendar := Render(DateLineOf, dates);
    var names := Render(DocNameOf, documents);
    return Reply([PracticalInfo(calendar, names)], []);
  }

  /** The corrected handler: a lookup miss hands over to the institution list. */
  method ActionFilieresEtablissement(db: UniversityDatabase, etablissement: Option<string>) returns (reply: Reply)
    ensures reply == FilieresEtablissement(etablissement, db.State())
  {
    if !Given(etablissement) {
      return Reply([AskEtablissement], []);
    }
    var x := etablissement.value;
    var etablissements := db.GetEtablissements();
    var trouve: Option<Etablissement> := None;
    var i := 0;
    while i < |etablissements|
      invariant 0 <= i <= |etablissements|
      invariant FindEtablissement(etablissements, x) == FindEtablissement(etablissements[i..], x)
    {
      if Like(etablissements[i].nom, x) {
        trouve := Some(etablissements[i]);
        break;
      }
      assert etablissements[i..][1..] == etablissements[i + 1..];
      i := i + 1;
    }
    assert trouve == FindEtablissement(etablissements, x);
    if trouve.None? {
      return Reply([EtablissementNotFound(x)], [FollowupAction(LISTE_ETABLISSEMENTS)]);
    }
    var e := trouve.value;
    var filieres := db.GetFilieresByEtablissement(e.id);
    if filieres == [] {
      return Reply([NoFilieresAt(e.nom)], []);
    }
    var pro := Render(ProgramLineOf, Filter(IsProfessionnelle, filieres));
    var classiques := Render(ProgramLineOf, Filter(IsClassique, filieres));
    return Reply([EtablissementFilieres(e.nom, pro, classiques, |filieres|, e.contact, e.siteWeb)],
      [SlotSet(DernierEtablissement, e.nom)]);
  }
}
