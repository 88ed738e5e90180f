/** The sample data of the Université de Douala and the one-shot seeding step
    that inserts it behind a row-count guard. The seed rows carry id 0;
    `Numbered` gives them the ids AUTOINCREMENT assigns. */
module Seeding {
  import opened Util
  import opened Schema

  const SEED_ETABLISSEMENTS: seq<Etablissement> :=
    [ Etablissement(0, "Faculté des Sciences", "Faculté",
        "Formation en sciences fondamentales et appliquées",
        "+237 233 40 20 10", "http://sciences.univ-douala.cm"),
      Etablissement(0, "Faculté de Médecine et des Sciences Biomédicales", "Faculté",
        "Formation des professionnels de santé",
        "+237 233 40 20 20", "http://medecine.univ-douala.cm"),
      Etablissement(0, "Faculté des Sciences Juridiques et Politiques", "Faculté",
        "Formation en droit et sciences politiques",
        "+237 233 40 20 30", "http://droit.univ-douala.cm"),
      Etablissement(0, "Institut Universitaire de Technologie (IUT)", "Institut",
        "Formations technologiques et professionnelles",
        "+237 233 40 20 40", "http://iut.univ-douala.cm"),
      Etablissement(0, "École Normale Supérieure (ENS)", "École",
        "Formation des enseignants",
        "+237 233 40 20 50", "http://ens.univ-douala.cm") ]

  const SEED_DOMAINES: seq<Domaine> :=
    [ Domaine(0, "Sciences et Technologies", "Domaines scientifiques et technologiques"),
      Domaine(0, "Santé et Médecine", "Domaines de la santé et médecine"),
      Domaine(0, "Droit et Sciences Politiques", "Domaines juridiques et politiques"),
      Domaine(0, "Sciences Économiques", "Domaines économiques et de gestion"),
      Domaine(0, "Lettres et Sciences Humaines", "Domaines littéraires et humaines"),
      Domaine(0, "Éducation et Formation", "Domaines de l'éducation et formation") ]

  /** The programs of the Faculté des Sciences (institution 1). */
  const SEED_FILIERES_SCIENCES: seq<Filiere> :=
    [ Filiere(0, "Licence en Mathématiques", CLASSIQUE, "3 ans",
        "Formation fondamentale en mathématiques pures et appliquées",
        "Enseignement, Recherche, Industries", "Baccalauréat C ou D", 1, "50,000 FCFA"),
      Filiere(0, "Licence en Physique", CLASSIQUE, "3 ans",
        "Formation en physique fondamentale et expérimentale",
        "Enseignement, Recherche, Laboratoires", "Baccalauréat C ou D", 1, "50,000 FCFA"),
      Filiere(0, "Licence en Chimie", CLASSIQUE, "3 ans",
        "Formation en chimie analytique et organique",
        "Industries chimiques, Laboratoires, Recherche", "Baccalauréat C ou D", 1, "50,000 FCFA"),
      Filiere(0, "Licence Professionnelle en Informatique", PROFESSIONNELLE, "3 ans",
        "Formation pratique en développement logiciel et réseaux",
        "Développeur, Administrateur réseaux, Analyste", "Baccalauréat C, D ou E", 1, "75,000 FCFA"),
      Filiere(0, "Licence Professionnelle en Électronique", PROFESSIONNELLE, "3 ans",
        "Formation en électronique et télécommunications",
        "Technicien supérieur, Maintenance électronique", "Baccalauréat C, D ou E", 1, "75,000 FCFA"),
      Filiere(0, "Licence Professionnelle en Génie Civil", PROFESSIONNELLE, "3 ans",
        "Formation technique en construction et bâtiment",
        "Technicien BTP, Conducteur de travaux", "Baccalauréat C, D ou E", 1, "75,000 FCFA") ]

  /** The programs of institutions 2, 3 and 4. */
  const SEED_AUTRES_FILIERES: seq<Filiere> :=
    [ Filiere(0, "Médecine Générale", CLASSIQUE, "7 ans",
        "Formation complète en médecine générale",
        "Médecin généraliste, Spécialisation", "Baccalauréat C avec mention", 2, "100,000 FCFA"),
      Filiere(0, "Droit Privé", CLASSIQUE, "4 ans",
        "Formation en droit civil et commercial",
        "Avocat, Juriste d'entreprise, Notaire", "Baccalauréat toutes séries", 3, "45,000 FCFA"),
      Filiere(0, "DUT en Génie Informatique", PROFESSIONNELLE, "2 ans",
        "Formation technique en informatique industrielle",
        "Technicien informatique, Support technique", "Baccalauréat C, D ou technique", 4, "60,000 FCFA") ]

  /** The link rows handed to INSERT OR IGNORE; (4,1), (5,1) and (6,1) are listed twice. */
  const SEED_LIENS: seq<Lien> :=
    [ Lien(1, 1), Lien(2, 1), Lien(3, 1), Lien(4, 1), Lien(5, 1), Lien(6, 1),
      Lien(7, 2),
      Lien(8, 3), Lien(9, 3),
      Lien(4, 1), Lien(5, 1), Lien(6, 1), Lien(9, 1) ]

  const SEED_ETAPES: seq<Etape> :=
    [ Etape(0, 1, "Création de compte",
        "Se créer un compte sur la plateforme de préinscription",
        "Rendez-vous sur http://preinscription.univ-douala.cm et cliquez sur 'Créer un compte'"),
      Etape(0, 2, "Remplissage du formulaire",
        "Compléter le formulaire de préinscription en ligne",
        "Fournir toutes les informations personnelles et académiques requises"),
      Etape(0, 3, "Upload des documents",
        "Téléverser les documents numérisés requis",
        "Documents à fournir : BAC, relevés de notes, photo d'identité, acte de naissance"),
      Etape(0, 4, "Validation du dossier",
        "Soumission et validation finale du dossier",
        "Vérifier toutes les informations avant soumission définitive") ]

  const SEED_DOCUMENTS: seq<Document> :=
    [ Document(0, "BAC ou équivalent", "Diplôme du Baccalauréat ou équivalent", true),
      Document(0, "Relevés de notes", "Relevés de notes du secondaire", true),
      Document(0, "Photo d'identité", "Photo d'identité récente format 4x4", true),
      Document(0, "Acte de naissance", "Copie d'acte de naissance", true),
      Document(0, "Certificat médical", "Certificat médical de non contre-indication", false),
      Document(0, "Lettre de motivation", "Lettre de motivation (pour certaines filières)", false) ]

  const SEED_DATES: seq<DateImportante> :=
    [ DateImportante(0, "Ouverture préinscription", "2024-06-01", "2024-07-15", "2024-2025"),
      DateImportante(0, "Clôture préinscription", "2024-07-15", "2024-07-15", "2024-2025"),
      DateImportante(0, "Début des cours", "2024-09-02", "2024-09-02", "2024-2025") ]

  /** AUTOINCREMENT: inserted one after the other, the k-th row (from 0)
      receives id `first + k` and keeps its other columns. */
  function Numbered<T>(rows: seq<T>, first: int, withId: (T, int) -> T): (r: seq<T>)
  {
    seq(|rows|, i requires 0 <= i < |rows| => withId(rows[i], first + i))
  }

  /** Two inserts in a row number their rows as one insert of both would: the
      second batch continues where the first stopped. */
  lemma NumberedAppend<T>(a: seq<T>, b: seq<T>, first: int, withId: (T, int) -> T)
    ensures Numbered(a + b, first, withId) == Numbered(a, first, withId) + Numbered(b, first + |a|, withId)
  {
  }

  /** The id column of each AUTOINCREMENT table. */
  function EtablissementWithId(e: Etablissement, id: int): Etablissement { e.(id := id) }
  function FiliereWithId(f: Filiere, id: int): Filiere { f.(id := id) }
  function DomaineWithId(d: Domaine, id: int): Domaine { d.(id := id) }
  function EtapeWithId(e: Etape, id: int): Etape { e.(id := id) }
  function DocumentWithId(d: Document, id: int): Document { d.(id := id) }
  function DateWithId(d: DateImportante, id: int): DateImportante { d.(id := id) }

  /** `INSERT OR IGNORE` of `rows`, one after the other, into a link table
      whose primary key is the whole pair: a pair already present is dropped. */
  function InsertOrIgnore(ls: seq<Lien>, rows: seq<Lien>): seq<Lien>
  {
    if rows == [] then ls
    else
      var prev := InsertOrIgnore(ls, rows[..|rows| - 1]);
      var l := rows[|rows| - 1];
      if l in prev then prev else prev + [l]
  }

  /** The table after the inserts starts with the rows it had, and holds
      exactly the pairs it had or was given. */
  lemma {:induction false} InsertOrIgnoreContents(ls: seq<Lien>, rows: seq<Lien>)
    ensures var r := InsertOrIgnore(ls, rows);
      |ls| <= |r| && r[..|ls|] == ls && forall l :: l in r <==> l in ls || l in rows
  {
    if rows != [] {
      InsertOrIgnoreContents(ls, rows[..|rows| - 1]);
      assert rows == rows[..|rows| - 1] + [rows[|rows| - 1]];
    }
  }

  /** The link table never receives a duplicate pair. */
  lemma {:induction false} InsertOrIgnoreNoDup(ls: seq<Lien>, rows: seq<Lien>)
    requires NoDup(ls)
    ensures NoDup(InsertOrIgnore(ls, rows))
  {
    if rows != [] {
      InsertOrIgnoreNoDup(ls, rows[..|rows| - 1]);
    }
  }

  /** Rows that are pairwise distinct and new are all inserted, in order. */
  lemma {:induction false} InsertOrIgnoreFresh(ls: seq<Lien>, rows: seq<Lien>)
    requires NoDup(ls + rows)
    ensures InsertOrIgnore(ls, rows) == ls + rows
  {
    if rows != [] {
      var init := rows[..|rows| - 1];
      assert ls + rows == (ls + init) + [rows[|rows| - 1]];
      assert NoDup(ls + init) by {
        forall i, j | 0 <= i < j < |ls + init| ensures (ls + init)[i] != (ls + init)[j] {
          assert (ls + init)[i] == (ls + rows)[i] && (ls + init)[j] == (ls + rows)[j];
        }
      }
      InsertOrIgnoreFresh(ls, init);
      assert rows[|rows| - 1] !in ls + init by {
        forall k | 0 <= k < |ls + init| ensures (ls + init)[k] != rows[|rows| - 1] {
          assert (ls + init)[k] == (ls + rows)[k];
          assert rows[|rows| - 1] == (ls + rows)[|ls + rows| - 1];
        }
      }
    }
  }

  /** `populate_sample_data`: nothing when `etablissements` already has a row,
      otherwise every seed list appended with its AUTOINCREMENT ids. */
  function Populate(t: Tables): Tables
  {
    if |t.etablissements| > 0 then t
    else
      var sciences := t.filieres + Numbered(SEED_FILIERES_SCIENCES, |t.filieres| + 1, FiliereWithId);
      Tables(
        t.etablissements + Numbered(SEED_ETABLISSEMENTS, |t.etablissements| + 1, EtablissementWithId),
        sciences + Numbered(SEED_AUTRES_FILIERES, |sciences| + 1, FiliereWithId),
        t.domaines + Numbered(SEED_DOMAINES, |t.domaines| + 1, DomaineWithId),
        InsertOrIgnore(t.liens, SEED_LIENS),
        t.etapes + Numbered(SEED_ETAPES, |t.etapes| + 1, EtapeWithId),
        t.documents + Numbered(SEED_DOCUMENTS, |t.documents| + 1, DocumentWithId),
        t.dates + Numbered(SEED_DATES, |t.dates| + 1, DateWithId))
  }

  /** Seeding is idempotent: once the store holds an institution, running the
      initialisation again changes no table. */
  lemma PopulateIdempotent(t: Tables)
    ensures |Populate(t).etablissements| > 0
    ensures |t.etablissements| > 0 ==> Populate(t) == t
    ensures Populate(Populate(t)) == Populate(t)
  {
  }

  /** The thirteen link rows leave ten distinct pairs: the repeated (4,1),
      (5,1) and (6,1) are ignored. */
  lemma SeedLiensInserted()
    ensures InsertOrIgnore([], SEED_LIENS) ==
      [ Lien(1, 1), Lien(2, 1), Lien(3, 1), Lien(4, 1), Lien(5, 1), Lien(6, 1),
        Lien(7, 2), Lien(8, 3), Lien(9, 3), Lien(9, 1) ]
  {
    var rows := SEED_LIENS;
    FirstNineInserted();
    var nine := InsertOrIgnore([], rows[..9]);
    IgnoredAgain(nine, rows, 9, 3);
    IgnoredAgain(nine, rows, 10, 4);
    IgnoredAgain(nine, rows, 11, 5);
    NineLacksPair();
    NewPairAppended(nine, rows, 12);
    assert rows[..13] == rows;
  }

  /** The first nine link rows are pairwise distinct, so all are inserted. */
  lemma FirstNineInserted()
    ensures InsertOrIgnore([], SEED_LIENS[..9]) ==
      [ Lien(1, 1), Lien(2, 1), Lien(3, 1), Lien(4, 1), Lien(5, 1), Lien(6, 1),
        Lien(7, 2), Lien(8, 3), Lien(9, 3) ]
  {
    var nine := SEED_LIENS[..9];
    assert NoDup(nine);
    InsertOrIgnoreFresh([], nine);
    assert [] + nine == nine;
  }

  lemma NineLacksPair()
    ensures Lien(9, 1) !in [ Lien(1, 1), Lien(2, 1), Lien(3, 1), Lien(4, 1), Lien(5, 1), Lien(6, 1),
                             Lien(7, 2), Lien(8, 3), Lien(9, 3) ]
  {
  }

  /** Re-inserting the pair at position `k` of `rows`, already present at
      position `at` of the table, leaves the table as it was. */
  lemma IgnoredAgain(ls: seq<Lien>, rows: seq<Lien>, k: nat, at: nat)
    requires k < |rows| && at < |ls| && ls[at] == rows[k]
    requires InsertOrIgnore([], rows[..k]) == ls
    ensures InsertOrIgnore([], rows[..k + 1]) == ls
  {
    assert rows[..k + 1][..k] == rows[..k];
  }

  /** Inserting a pair the table lacks appends it. */
  lemma NewPairAppended(ls: seq<Lien>, rows: seq<Lien>, k: nat)
    requires k < |rows| && rows[k] !in ls
    requires InsertOrIgnore([], rows[..k]) == ls
    ensures InsertOrIgnore([], rows[..k + 1]) == ls + [rows[k]]
  {
    assert rows[..k + 1][..k] == rows[..k];
  }

  /** On an empty store seeding adds 5 institutions, 9 programs, 6 areas,
      10 distinct links, 4 steps, 6 documents and 3 dates. */
  lemma PopulateEmpty()
    ensures var t := Populate(EMPTY);
      && |t.etablissements| == 5 && |t.filieres| == 9 && |t.domaines| == 6
      && |t.liens| == 10 && NoDup(t.liens)
      && |t.etapes| == 4 && |t.documents| == 6 && |t.dates| == 3
      && KnownKinds(t.filieres)
  {
    SeedLiensInserted();
    InsertOrIgnoreNoDup([], SEED_LIENS);
  }

  /** Seeding keeps the primary keys: positional ids and a duplicate-free link table. */
  lemma PopulateKeepsWellFormed(t: Tables)
    requires WellFormed(t)
    ensures WellFormed(Populate(t))
  {
    if |t.etablissements| == 0 {
      var p := Populate(t);
      assert forall i :: 0 <= i < |p.etablissements| ==> p.etablissements[i].id == i + 1;
      assert forall i :: 0 <= i < |p.filieres| ==> p.filieres[i].id == i + 1;
      assert forall i :: 0 <= i < |p.domaines| ==> p.domaines[i].id == i + 1;
      assert forall i :: 0 <= i < |p.etapes| ==> p.etapes[i].id == i + 1;
      assert forall i :: 0 <= i < |p.documents| ==> p.documents[i].id == i + 1;
      assert forall i :: 0 <= i < |p.dates| ==> p.dates[i].id == i + 1;
      InsertOrIgnoreNoDup(t.liens, SEED_LIENS);
    }
  }
}
