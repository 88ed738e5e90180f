/** What each custom action of the orientation chatbot answers. A handler
    takes the entity or slot values the tracker holds (an absent value is
    `None`) and the tables of the store, and gives the messages it utters
    and the events it returns. Messages are structured: which records are
    shown, in which order and with which optional lines; the wording and the
    emoji are left to the templates. */
module Dialogue {
  import opened Util
  import opened Text
  import opened Schema
  import opened Queries

  datatype Slot = DomaineInteret | FiliereChoisie | DernierEtablissement

  datatype Event =
    | SlotSet(slot: Slot, value: string)
    | FollowupAction(name: string)

  /** The Python exception a handler ends with. */
  datatype Failure = NameError | IndexError

  /** 🎯 for a 'professionnelle' program, 📚 otherwise. */
  datatype Icon = Target | Books

  /** 🔴 for a required document, 🟡 for an optional one. */
  datatype Mark = Required | Optional

  datatype OrientationItem = OrientationItem(
    icon: Icon, nom: string, kind: string, etablissementNom: string, duree: string, frais: string)

  datatype EtabSummary = EtabSummary(nom: string, description: string)

  /** The detail card; an absent optional line is `None`. */
  datatype FiliereCard = FiliereCard(
    nom: string, kindLabel: string, duree: string, etablissementNom: string, frais: string,
    description: string, debouches: Option<string>, admission: Option<string>,
    contact: Option<string>, siteWeb: Option<string>)

  datatype EtabEntry = EtabEntry(
    nom: string, kind: string, description: string, filiereCount: Option<nat>,
    contact: Option<string>, siteWeb: Option<string>)

  datatype StepLine = StepLine(etape: int, description: string, details: Option<string>)

  datatype DocLine = DocLine(mark: Mark, typeDocument: string)

  /** "evenement : debut [au fin]". */
  datatype DateLine = DateLine(evenement: string, debut: string, fin: Option<string>)

  datatype GuideDate = GuideDate(line: DateLine, annee: string)

  datatype CategoryItem = CategoryItem(
    nom: string, duree: string, frais: string, description: string, debouches: string)

  datatype ComparisonItem = ComparisonItem(
    nom: string, kind: string, duree: string, frais: string, etablissementNom: string, kindLabel: string)

  datatype Suggestion = Suggestion(
    rank: nat, nom: string, etablissementNom: string, duree: string, frais: string, excerpt: string)

  datatype ProgramLine = ProgramLine(nom: string, duree: string, frais: string)

  datatype Message =
    | AskDomaine
    | NoFilieresForDomaine(domaine: string)
    | EtablissementOverview(summaries: seq<EtabSummary>)
    | OrientationList(domaine: string, orientation: seq<OrientationItem>, others: Option<nat>)
    | AskFiliere
    | DidYouMean(query: string, names: seq<string>)
    | FiliereNotFound(query: string)
    | FiliereDetail(card: FiliereCard)
    | EtablissementsUnavailable
    | EtablissementList(entries: seq<EtabEntry>)
    | PreinscriptionGuide(steps: seq<StepLine>, documents: seq<DocLine>, dates: seq<GuideDate>)
    | CategoryListing(kind: string, programs: seq<CategoryItem>)
    | AskComparison
    | ComparisonNotFound(query: string)
    | Description(nom: string, description: string)
    | Comparison(compared: seq<ComparisonItem>)
    | AskInterests
    | NoSuggestions
    | Suggestions(domaine: string, preference: Option<string>, suggestions: seq<Suggestion>)
    | PracticalInfo(calendar: seq<DateLine>, required: seq<string>)
    | AskEtablissement
    | EtablissementNotFound(query: string)
    | NoFilieresAt(nom: string)
    | EtablissementFilieres(
        nom: string, professionnelles: seq<ProgramLine>, classiques: seq<ProgramLine>,
        total: nat, contact: string, siteWeb: string)

  /** A handler either returns its events or ends with an exception, after
      uttering `messages` in both cases. */
  datatype Reply =
    | Reply(messages: seq<Message>, events: seq<Event>)
    | Raised(messages: seq<Message>, failure: Failure)

  const ORIENTATION_CAP: nat := 5
  const SIMILAR_CAP: nat := 3
  const COMPARISON_CAP: nat := 3
  const SUGGESTION_CAP: nat := 3
  const EXCERPT_LENGTH: nat := 100
  const FACULTE_DES_SCIENCES: string := "Faculté des Sciences"
  const LISTE_ETABLISSEMENTS: string := "action_liste_etablissements"

  // ---------------------------------------------------------------------
  // How one record is shown

  function IconOf(f: Filiere): Icon
  {
    if f.kind == PROFESSIONNELLE then Target else Books
  }

  function OrientationItemOf(r: DomaineRow): OrientationItem
  {
    var f := r.joined.filiere;
    OrientationItem(IconOf(f), f.nom, f.kind, r.joined.etablissement.nom, f.duree, f.fraisInscription)
  }

  function SummaryOf(e: Etablissement): EtabSummary
  {
    EtabSummary(e.nom, e.description)
  }

  function NomOf(j: Joined): string
  {
    j.filiere.nom
  }

  function CardOf(d: Joined): FiliereCard
  {
    var f := d.filiere;
    var e := d.etablissement;
    FiliereCard(f.nom, Capitalize(f.kind), f.duree, e.nom, f.fraisInscription, f.description,
      NonEmpty(f.debouches), NonEmpty(f.conditionsAdmission), NonEmpty(e.contact), NonEmpty(e.siteWeb))
  }

  function EntryOf(e: Etablissement, count: nat): EtabEntry
  {
    EtabEntry(e.nom, e.kind, e.description, if count > 0 then Some(count) else None,
      NonEmpty(e.contact), NonEmpty(e.siteWeb))
  }

  function StepOf(e: Etape): StepLine
  {
    StepLine(e.etape, e.description, NonEmpty(e.details))
  }

  function MarkOf(d: Document): Mark
  {
    if d.obligatoire then Required else Optional
  }

  function DocLineOf(d: Document): DocLine
  {
    DocLine(MarkOf(d), d.typeDocument)
  }

  /** The end date is printed only when it is set and differs from the start. */
  function DateLineOf(d: DateImportante): DateLine
  {
    DateLine(d.evenement, d.dateDebut, if d.dateFin != [] && d.dateFin != d.dateDebut then Some(d.dateFin) else None)
  }

  function GuideDateOf(d: DateImportante): GuideDate
  {
    GuideDate(DateLineOf(d), d.anneeAcademique)
  }

  function CategoryItemOf(j: Joined): CategoryItem
  {
    var f := j.filiere;
    CategoryItem(f.nom, f.duree, f.fraisInscription, f.description, f.debouches)
  }

  function ComparisonItemOf(j: Joined): ComparisonItem
  {
    var f := j.filiere;
    ComparisonItem(f.nom, f.kind, f.duree, f.fraisInscription, j.etablissement.nom, Capitalize(f.kind))
  }

  function SuggestionOf(j: Joined, rank: nat): Suggestion
  {
    var f := j.filiere;
    Suggestion(rank, f.nom, j.etablissement.nom, f.duree, f.fraisInscription, Prefix(f.description, EXCERPT_LENGTH))
  }

  function ProgramLineOf(j: Joined): ProgramLine
  {
    ProgramLine(j.filiere.nom, j.filiere.duree, j.filiere.fraisInscription)
  }

  function DocNameOf(d: Document): string
  {
    d.typeDocument
  }

  function JoinedOf(r: DomaineRow): Joined
  {
    r.joined
  }

  /** "Et n autres formations": shown only when rows were left out. */
  function Others(n: nat, cap: nat): (r: Option<nat>)
    ensures r.Some? <==> n > cap
    ensures r.Some? ==> r.value + cap == n
  {
    if n > cap then Some(n - cap) else None
  }

  /** The optional preference, shown only when it is set and non-empty. */
  function Shown(o: Option<string>): (r: Option<string>)
    ensures r.Some? <==> Given(o)
    ensures r.Some? ==> r.value == o.value
  {
    if Given(o) then Some(o.value) else None
  }

  // ---------------------------------------------------------------------
  // Per-row helpers that need the store or a parameter

  /** One entry per institution, in table order, each with its program count. */
  function Entries(t: Tables, es: seq<Etablissement>): seq<EtabEntry>
  {
    if es == [] then []
    else
      var e := es[|es| - 1];
      Entries(t, es[..|es| - 1]) + [EntryOf(e, |FilieresByEtablissement(t, e.id)|)]
  }

  /** The program's description or name contains `domaine`, case-insensitively. */
  predicate Mentions(domaine: string, j: Joined)
  {
    Like(j.filiere.description, domaine) || Like(j.filiere.nom, domaine)
  }

  /** The programs that mention `domaine`, in their order among `rows`. */
  function Mentioning(rows: seq<Joined>, domaine: string): seq<Joined>
  {
    Filter(j => Mentions(domaine, j), rows)
  }

  /** The suggestions numbered from 1. */
  function Ranked(rows: seq<Joined>): seq<Suggestion>
  {
    if rows == [] then [] else Ranked(rows[..|rows| - 1]) + [SuggestionOf(rows[|rows| - 1], |rows|)]
  }

  predicate IsProfessionnelle(j: Joined)
  {
    j.filiere.kind == PROFESSIONNELLE
  }

  predicate IsClassique(j: Joined)
  {
    j.filiere.kind == CLASSIQUE
  }

  predicate IsObligatoire(d: Document)
  {
    d.obligatoire
  }

  /** The first institution, in list order, whose name contains `x` case-insensitively. */
  function FindEtablissement(es: seq<Etablissement>, x: string): (r: Option<Etablissement>)
    ensures r.None? <==> forall i :: 0 <= i < |es| ==> !Like(es[i].nom, x)
    ensures r.Some? ==> r.value in es && Like(r.value.nom, x)
  {
    if es == [] then None
    else if Like(es[0].nom, x) then Some(es[0])
    else
      assert forall i :: 1 <= i < |es| ==> es[i] == es[1..][i - 1];
      FindEtablissement(es[1..], x)
  }

  /** The search loop stops at the first match: no earlier institution matches. */
  lemma {:induction false} FindEtablissementFirst(es: seq<Etablissement>, x: string)
    ensures FindEtablissement(es, x).Some? ==>
      exists k :: 0 <= k < |es| && es[k] == FindEtablissement(es, x).value &&
        forall i :: 0 <= i < k ==> !Like(es[i].nom, x)
  {
    if es != [] && !Like(es[0].nom, x) {
      FindEtablissementFirst(es[1..], x);
      if FindEtablissement(es, x).Some? {
        var k :| 0 <= k < |es[1..]| && es[1..][k] == FindEtablissement(es, x).value &&
          forall i :: 0 <= i < k ==> !Like(es[1..][i].nom, x);
        assert es[k + 1] == es[1..][k];
        assert forall i :: 1 <= i < k + 1 ==> es[i] == es[1..][i - 1];
      }
    } else if es != [] {
      assert es[0] == FindEtablissement(es, x).value;
    }
  }

  // ---------------------------------------------------------------------
  // The handlers

  /** `action_guide_orientation`. */
  function GuideOrientation(domaine: Option<string>, t: Tables): Reply
  {
    if !Given(domaine) then Reply([AskDomaine], [])
    else
      var x := domaine.value;
      var rows := FilieresByDomaine(t, x);
      if rows == [] then
        Reply([NoFilieresForDomaine(x), EtablissementOverview(Map(SummaryOf, t.etablissements))], [])
      else
        Reply([OrientationList(x, Map(OrientationItemOf, Prefix(rows, ORIENTATION_CAP)), Others(|rows|, ORIENTATION_CAP))],
          [SlotSet(DomaineInteret, x)])
  }

  /** `action_detail_filiere`. */
  function DetailFiliere(filiere: Option<string>, t: Tables): Reply
  {
    if !Given(filiere) then Reply([AskFiliere], [])
    else
      var q := filiere.value;
      match FiliereDetails(t, q)
      case None =>
        var similar := SearchFilieres(t, q);
        if similar != [] then Reply([DidYouMean(q, Map(NomOf, Prefix(similar, SIMILAR_CAP)))], [])
        else Reply([FiliereNotFound(q)], [])
      case Some(d) => Reply([FiliereDetail(CardOf(d))], [SlotSet(FiliereChoisie, d.filiere.nom)])
  }

  /** `action_liste_etablissements` (the second class of that name, which
      replaces the first). */
  function ListeEtablissements(t: Tables): Reply
  {
    if t.etablissements == [] then Reply([EtablissementsUnavailable], [])
    else Reply([EtablissementList(Entries(t, t.etablissements))], [])
  }

  /** `action_guide_preinscription`. */
  function GuidePreinscription(t: Tables): Reply
  {
    Reply([PreinscriptionGuide(Map(StepOf, Processus(t)), Map(DocLineOf, t.documents),
      Map(GuideDateOf, DatesImportantes(t)))], [])
  }

  /** The programs of one type at the Faculté des Sciences. */
  function ScienceListing(kind: string, t: Tables): Reply
  {
    Reply([CategoryListing(kind, Map(CategoryItemOf, FilieresByType(t, kind, Some(FACULTE_DES_SCIENCES))))], [])
  }

  /** `action_filieres_professionnelles_science`. */
  function FilieresProfessionnellesScience(t: Tables): Reply
  {
    ScienceListing(PROFESSIONNELLE, t)
  }

  /** `action_filieres_classiques_science`. */
  function FilieresClassiquesScience(t: Tables): Reply
  {
    ScienceListing(CLASSIQUE, t)
  }

  /** `action_comparer_filieres`; a resolved name with no word at all makes
      `split()[-1]` raise IndexError. */
  function ComparerFilieres(filiere: Option<string>, t: Tables): Reply
  {
    if !Given(filiere) then Reply([AskComparison], [])
    else
      var q := filiere.value;
      match FiliereDetails(t, q)
      case None => Reply([ComparisonNotFound(q)], [])
      case Some(d) =>
        match LastWord(d.filiere.nom)
        case None => Raised([], IndexError)
        case Some(keyword) =>
          var similar := SearchFilieres(t, keyword);
          if |similar| <= 1 then Reply([Description(d.filiere.nom, d.filiere.description)], [])
          else Reply([Comparison(Map(ComparisonItemOf, Prefix(similar, COMPARISON_CAP)))], [])
  }

  /** The programs the suggestion handler chooses from: with a preferred type,
      the programs of that type that mention the domain; without one, the
      rows of the domain query. */
  function SuggestCandidates(domaine: string, preference: Option<string>, t: Tables): seq<Joined>
  {
    if Given(preference) then Mentioning(FilieresByType(t, preference.value, None), domaine)
    else Map(JoinedOf, FilieresByDomaine(t, domaine))
  }

  /** `action_suggest_filieres`. */
  function SuggestFilieres(domaine: Option<string>, preference: Option<string>, t: Tables): Reply
  {
    if !Given(domaine) then Reply([AskInterests], [])
    else
      var candidates := SuggestCandidates(domaine.value, preference, t);
      if candidates == [] then Reply([NoSuggestions], [])
      else
        var top := Prefix(SortBy(candidates, NomLe), SUGGESTION_CAP);
        Reply([Suggestions(domaine.value, Shown(preference), Ranked(top))], [])
  }

  /** `action_informations_pratiques`. */
  function InformationsPratiques(t: Tables): Reply
  {
    Reply([PracticalInfo(Map(DateLineOf, DatesImportantes(t)), Map(DocNameOf, Filter(IsObligatoire, t.documents)))], [])
  }

  /** The answer of `action_filieres_etablissement` once institution `e` is found. */
  function FilieresOf(e: Etablissement, t: Tables): Reply
  {
    var rows := FilieresByEtablissement(t, e.id);
    if rows == [] then Reply([NoFilieresAt(e.nom)], [])
    else
      Reply([EtablissementFilieres(e.nom,
          Map(ProgramLineOf, Filter(IsProfessionnelle, rows)),
          Map(ProgramLineOf, Filter(IsClassique, rows)),
          |rows|, e.contact, e.siteWeb)],
        [SlotSet(DernierEtablissement, e.nom)])
  }

  /** `action_filieres_etablissement` as written: on a lookup miss it utters
      the not-found message and then evaluates `FollowupAction`, a name the
      module never imports, so the handler raises NameError. */
  function FilieresEtablissementAsWritten(etablissement: Option<string>, t: Tables): Reply
  {
    if !Given(etablissement) then Reply([AskEtablissement], [])
    else
      match FindEtablissement(t.etablissements, etablissement.value)
      case None => Raised([EtablissementNotFound(etablissement.value)], NameError)
      case Some(e) => FilieresOf(e, t)
  }

  /** `action_filieres_etablissement` as intended: on a lookup miss it hands
      over to the institution list. */
  function FilieresEtablissement(etablissement: Option<string>, t: Tables): Reply
  {
    if !Given(etablissement) then Reply([AskEtablissement], [])
    else
      match FindEtablissement(t.etablissements, etablissement.value)
      case None => Reply([EtablissementNotFound(etablissement.value)], [FollowupAction(LISTE_ETABLISSEMENTS)])
      case Some(e) => FilieresOf(e, t)
  }
}
