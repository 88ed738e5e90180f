/** The seven tables of the university store, one record type per table.
    A text column that SQL leaves NULL is the empty string here; the `type`
    columns are called `kind`. */
module Schema {
  import opened Util

  /** Institution: a faculty, institute or school (`etablissements`). */
  datatype Etablissement = Etablissement(
    id: int, nom: string, kind: string, description: string, contact: string, siteWeb: string)

  /** Program, a "filière" (`filieres`); `kind` is 'professionnelle' or 'classique'. */
  datatype Filiere = Filiere(
    id: int, nom: string, kind: string, duree: string, description: string, debouches: string,
    conditionsAdmission: string, etablissementId: int, fraisInscription: string)

  /** Interest area (`domaines_interet`). */
  datatype Domaine = Domaine(id: int, nom: string, description: string)

  /** A row of the program–area link table (`filiere_domaines`), whose primary key
      is the whole pair. */
  datatype Lien = Lien(filiereId: int, domaineId: int)

  /** Enrolment step (`processus_preinscription`). */
  datatype Etape = Etape(id: int, etape: int, description: string, details: string, liensUtiles: string)

  /** Required document (`documents_requis`). */
  datatype Document = Document(id: int, typeDocument: string, description: string, obligatoire: bool)

  /** Important date (`dates_importantes`); dates are ISO strings. */
  datatype DateImportante = DateImportante(
    id: int, evenement: string, dateDebut: string, dateFin: string, anneeAcademique: string)

  /** The whole store, each table in insertion order. */
  datatype Tables = Tables(
    etablissements: seq<Etablissement>,
    filieres: seq<Filiere>,
    domaines: seq<Domaine>,
    liens: seq<Lien>,
    etapes: seq<Etape>,
    documents: seq<Document>,
    dates: seq<DateImportante>)

  const EMPTY: Tables := Tables([], [], [], [], [], [], [])

  const PROFESSIONNELLE: string := "professionnelle"
  const CLASSIQUE: string := "classique"

  /** The two program categories the store is meant to hold. */
  predicate KnownKinds(fs: seq<Filiere>)
  {
    forall i :: 0 <= i < |fs| ==> fs[i].kind == PROFESSIONNELLE || fs[i].kind == CLASSIQUE
  }

  /** The primary keys: AUTOINCREMENT ids are 1-based positions (rows are never
      deleted), and the link table holds each (filiere_id, domaine_id) pair once. */
  ghost predicate WellFormed(t: Tables)
  {
    && (forall i :: 0 <= i < |t.etablissements| ==> t.etablissements[i].id == i + 1)
    && (forall i :: 0 <= i < |t.filieres| ==> t.filieres[i].id == i + 1)
    && (forall i :: 0 <= i < |t.domaines| ==> t.domaines[i].id == i + 1)
    && (forall i :: 0 <= i < |t.etapes| ==> t.etapes[i].id == i + 1)
    && (forall i :: 0 <= i < |t.documents| ==> t.documents[i].id == i + 1)
    && (forall i :: 0 <= i < |t.dates| ==> t.dates[i].id == i + 1)
    && NoDup(t.liens)
  }
}
