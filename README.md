# Bot4Douala orientation assistant — Dafny model

This project models the core of the Université de Douala orientation chatbot, which has two parts.

The first part is the `UniversityDatabase` store. It has seven tables:
- institutions (établissements);
- programs (filières);
- interest domains (domaines d'intérêt);
- program–domain links;
- pre-enrolment steps;
- required documents;
- important dates.

The store is seeded once with sample data. Its getters then select from the tables by joins, equality, `LIKE '%x%'`, `ORDER BY` and `DISTINCT`.

The second part is the decision logic of the Rasa custom actions. Each action reads an optional entity or slot value, queries the store, chooses a branch, caps and orders the records it shows, and returns slot events.

## Layout

- `util.dfy` (`Util`): `Option`, `Prefix` (a Python slice `[:n]`), `Map`, `Filter`, `Dedup` and a stable insertion sort `SortBy`, with their lemmas.
- `text.dfy` (`Text`): text helpers.
  - ASCII case folding and substring search.
  - `Like`, the case-insensitive containment shared by SQL `LIKE '%x%'` and `x.lower() in y.lower()`.
  - Code-point string order (`StrLe`), `str.split()[-1]` (`LastWord`) and `str.capitalize` (`Capitalize`).
- `schema.dfy` (`Schema`): one record per table row, the `Tables` value, and the well-formedness predicate.
  - Well-formedness means ids are 1-based insertion positions and the link table holds no duplicate primary key.
- `seeding.dfy` (`Seeding`): the seed rows, AUTOINCREMENT numbering, `INSERT OR IGNORE`, and `Populate`, the seeding step as a function of the tables.
- `queries.dfy` (`Queries`): each getter as a pure function over `Tables`, with lemmas that state exactly which rows each returns and in which order.
- `database.dfy` (`Database`): the class `UniversityDatabase`.
  - It has one sequence field per table.
  - The constructor runs the seeding step; `PopulateSampleData` inserts table by table behind the row-count guard.
  - Each getter is a loop method whose `ensures` ties its result to the matching function of `Queries`.
- `dialogue.dfy` (`Dialogue`): structured messages and slot events, and each action's reply as a function of its inputs and the tables.
- `dialogue_facts.dfy` (`DialogueFacts`): the properties of those replies.
- `actions.dfy` (`Actions`): each action's `run` as a method over a `UniversityDatabase`.
  - Each method calls the getters and builds its lines in loops.
  - Each is proved to return exactly the reply that `Dialogue` specifies for the store's tables.

## Model

| member | source | states |
|---|---|---|
| Seeding.Populate | projectRasa/database/database.py:105-269 | the seeding step as a function of the tables: unchanged when an institution exists, otherwise each seed list appended with AUTOINCREMENT ids and the links inserted with `INSERT OR IGNORE`; its properties are the `Populate...` lemmas below |
| Seeding.InsertOrIgnore | projectRasa/database/database.py:215-218 | `INSERT OR IGNORE` of a batch of link pairs, one after the other, against the composite primary key; its properties are the `InsertOrIgnore...` lemmas below |
| Seeding.Numbered | projectRasa/database/database.py:133-136 | AUTOINCREMENT for one `executemany`: the k-th row gets id first + k and keeps its other columns |
| Seeding.PopulateIdempotent | projectRasa/database/database.py:110-112 | seeding always leaves at least one institution; when the institution table already has a row, seeding changes no table; seeding twice equals seeding once |
| Seeding.PopulateEmpty | projectRasa/database/database.py:115-269 | seeding an empty store adds 5 institutions, 6 domains, 9 programs, 10 distinct links, 4 steps, 6 documents and 3 dates, and every program type is 'professionnelle' or 'classique' |
| Seeding.PopulateKeepsWellFormed | projectRasa/database/database.py:105-269 | seeding a well-formed store (positional ids, no duplicate link) yields a well-formed store |
| Seeding.SeedLiensInserted | projectRasa/database/database.py:208-218 | `INSERT OR IGNORE` of the 13 seed link pairs keeps exactly 10: the repeated (4,1), (5,1), (6,1) are dropped and (9,1) is appended |
| Seeding.FirstNineInserted | projectRasa/database/database.py:208-212 | the first nine seed pairs are pairwise distinct, so all nine are inserted in order |
| Seeding.IgnoredAgain | projectRasa/database/database.py:215-218 | a pair already in the link table is ignored |
| Seeding.NewPairAppended | projectRasa/database/database.py:215-218 | a pair not yet in the link table is appended |
| Seeding.NineLacksPair | projectRasa/database/database.py:208-212 | (9,1) is not among the first nine pairs |
| Seeding.InsertOrIgnoreContents | projectRasa/database/database.py:63 | `INSERT OR IGNORE` keeps the old links as a prefix and ends with exactly the old links plus the inserted ones |
| Seeding.InsertOrIgnoreNoDup | projectRasa/database/database.py:63 | the composite primary key holds: a duplicate-free link table stays duplicate-free whatever is inserted |
| Seeding.InsertOrIgnoreFresh | projectRasa/database/database.py:215-218 | inserting pairwise-new pairs appends all of them |
| Seeding.NumberedAppend | projectRasa/database/database.py:182-205 | AUTOINCREMENT across two `executemany` calls: the second batch of programs continues the ids of the first, as one insert of both would |
| Database.UniversityDatabase.constructor | projectRasa/database/database.py:8-10 | a new store holds the seeding of the existing tables; a well-formed existing store stays well-formed |
| Database.UniversityDatabase.PopulateSampleData | projectRasa/database/database.py:105-269 | the tables afterwards are exactly `Populate` of the tables before, guard included; a well-formed store stays well-formed (`Valid`, through `PopulateKeepsWellFormed`) |
| Database.UniversityDatabase.InsertEtablissements | projectRasa/database/database.py:133-136 | the institution rows are appended with consecutive ids after the last row |
| Database.UniversityDatabase.InsertDomaines | projectRasa/database/database.py:148-151 | the domain rows are appended with consecutive ids |
| Database.UniversityDatabase.InsertFilieres | projectRasa/database/database.py:182-205 | the program rows are appended with consecutive ids |
| Database.UniversityDatabase.InsertOrIgnoreLiens | projectRasa/database/database.py:215-218 | the link table becomes `InsertOrIgnore` of the old table and the rows |
| Database.UniversityDatabase.InsertEtapes | projectRasa/database/database.py:239-242 | the step rows are appended with consecutive ids |
| Database.UniversityDatabase.InsertDocuments | projectRasa/database/database.py:254-257 | the document rows are appended with consecutive ids |
| Database.UniversityDatabase.InsertDates | projectRasa/database/database.py:266-269 | the date rows are appended with consecutive ids |
| Database.UniversityDatabase.LookupEtablissement | projectRasa/database/database.py:282 | the join partner of a program is the first institution with its `etablissement_id`, or none |
| Database.UniversityDatabase.LookupDomaine | projectRasa/database/database.py:346-348 | the join partner of a link is the first domain with its `domaine_id`, or none |
| Database.UniversityDatabase.Select | projectRasa/database/database.py:280-283 | the inner join of programs and institutions under a WHERE clause, one row per program in table order |
| Database.UniversityDatabase.GetFilieresByEtablissement | projectRasa/database/database.py:274-302 | returns the rows `Queries.FilieresByEtablissement` specifies |
| Database.UniversityDatabase.GetFiliereDetails | projectRasa/database/database.py:304-336 | `fetchone`: the first joined row whose name is LIKE the fragment, or none |
| Database.UniversityDatabase.LinksOf | projectRasa/database/database.py:344-349 | one row per link of the program whose domain name is LIKE the fragment |
| Database.UniversityDatabase.GetFilieresByDomaine | projectRasa/database/database.py:338-369 | returns the rows `Queries.FilieresByDomaine` specifies |
| Database.UniversityDatabase.GetFilieresByType | projectRasa/database/database.py:371-407 | returns the rows `Queries.FilieresByType` specifies |
| Database.UniversityDatabase.GetEtablissements | projectRasa/database/database.py:409-428 | returns the institution table in order |
| Database.UniversityDatabase.GetProcessusPreinscription | projectRasa/database/database.py:430-448 | returns the step table sorted by `etape` |
| Database.UniversityDatabase.GetDocumentsRequis | projectRasa/database/database.py:450-467 | returns the document table in order |
| Database.UniversityDatabase.GetDatesImportantes | projectRasa/database/database.py:469-487 | returns the date table sorted by `date_debut` |
| Database.UniversityDatabase.SearchFilieres | projectRasa/database/database.py:489-517 | returns the rows `Queries.SearchFilieres` specifies |
| Database.UniversityDatabase.GetEtablissementsByDomaine | projectRasa/database/database.py:519-547 | returns the distinct (institution, domain name) rows, ordered by institution name |
| Database.SortRows | projectRasa/database/database.py:435 | `ORDER BY`, computed by inserting one row at a time, equals the stable sort `SortBy` |
| Queries.JoinWhere | projectRasa/database/database.py:280-283 | the inner join of programs with their institution under a WHERE clause, programs as the outer loop; described by `JoinWhereMembers` and `JoinWhereOrder` |
| Queries.FilieresByEtablissement | projectRasa/database/database.py:279-299 | the rows of `get_filieres_by_etablissement`; described by `FilieresByEtablissementExact` |
| Queries.FiliereDetails | projectRasa/database/database.py:309-336 | the row of `get_filiere_details` (`fetchone`); described by `FiliereDetailsFirstMatch` |
| Queries.FilieresByDomaine | projectRasa/database/database.py:343-369 | the rows of `get_filieres_by_domaine`, one per matching link; described by `DomaineJoinMembers`, `LinkRowsPerLink` and `FilieresByDomaineEmpty` |
| Queries.FilieresByType | projectRasa/database/database.py:376-389 | the rows of `get_filieres_by_type`, with the institution filter only for a non-empty name; described by `FilieresByTypeExact` and `FilieresByTypeDisjoint` |
| Queries.SearchFilieres | projectRasa/database/database.py:494-499 | the rows of `search_filieres`; described by `SearchFilieresExact` |
| Queries.Processus | projectRasa/database/database.py:435 | the steps ordered by `etape`; described by `ProcessusOrdered` |
| Queries.DatesImportantes | projectRasa/database/database.py:474 | the dates ordered by `date_debut`; described by `DatesOrdered` |
| Queries.EtablissementsByDomaine | projectRasa/database/database.py:524-531 | `SELECT DISTINCT` institution and domain name over the domain join, ordered by institution name; described by `EtablissementsByDomaineExact` |
| Queries.EtablissementById | projectRasa/database/database.py:282 | a found institution is in the table and has the id; none is found iff no row has the id |
| Queries.DomaineById | projectRasa/database/database.py:348 | a found domain is in the table and has the id; none is found iff no row has the id |
| Queries.EtablissementByIdPositional | projectRasa/database/database.py:282 | with positional ids, the lookup is exactly indexing at id - 1, and none outside 1..n |
| Queries.DomaineByIdPositional | projectRasa/database/database.py:348 | with positional ids, the domain lookup is exactly indexing |
| Queries.JoinWhereMembers | projectRasa/database/database.py:280-283 | a row is in the join iff its program is in the table, its institution is the program's join partner, and the WHERE clause holds |
| Queries.JoinWhereOrder | projectRasa/database/database.py:280-283 | the join's programs are exactly the joining programs, in table order |
| Queries.JoinWhereAppend | projectRasa/database/database.py:280-283 | the join distributes over concatenation of the program table |
| Queries.FirstJoin | projectRasa/database/database.py:316 | `fetchone` is none iff no program joins; a result is a joining program with its partner |
| Queries.FirstJoinIsFirstRow | projectRasa/database/database.py:316 | `fetchone` equals the first row of the full join |
| Queries.FirstJoinIsEarliest | projectRasa/database/database.py:316 | no program before the fetched one joins |
| Queries.FilieresByEtablissementExact | projectRasa/database/database.py:279-299 | on a well-formed store, exactly the programs with that `etablissement_id`, each with the institution at that id, and none when that institution is missing |
| Queries.FiliereDetailsFirstMatch | projectRasa/database/database.py:309-336 | none iff no program whose institution exists has a name LIKE the fragment; otherwise the earliest such program, with its institution (which carries its contact and site) |
| Queries.FilieresByTypeExact | projectRasa/database/database.py:376-389 | exactly the joined programs whose type equals the kind; the institution name must be LIKE a given non-empty filter, and no filter applies otherwise |
| Queries.FilieresByTypeDisjoint | projectRasa/database/database.py:376-389 | 'professionnelle' and 'classique' results under the same filter share no row |
| Queries.SearchFilieresExact | projectRasa/database/database.py:494-499 | exactly the joined programs whose name or description is LIKE the query |
| Queries.LinkRowsPerLink | projectRasa/database/database.py:343-369 | a program yields one row per matching link, with no deduplication |
| Queries.LinkRowsMembers | projectRasa/database/database.py:343-349 | a program's rows carry exactly the names of the matching domains it is linked to |
| Queries.DomaineJoinMembers | projectRasa/database/database.py:343-349 | a row is in the domain join iff its program joins an institution and is linked to a domain whose name is LIKE the fragment, carrying that domain's name |
| Queries.EtapeLePreorder | projectRasa/database/database.py:435 | ordering steps by `etape` is a total preorder |
| Queries.DateLePreorder | projectRasa/database/database.py:474 | ordering dates by `date_debut` in string order is a total preorder |
| Queries.EtabNomLePreorder | projectRasa/database/database.py:531 | ordering by institution name is a total preorder |
| Queries.NomLePreorder | projectRasa/actions/actions.py:299 | ordering by program name is a total preorder |
| Queries.ProcessusOrdered | projectRasa/database/database.py:435 | the steps come out sorted by `etape` and are a permutation of the table |
| Queries.DatesOrdered | projectRasa/database/database.py:474 | the dates come out sorted by `date_debut` and are a permutation of the table |
| Queries.EtablissementsByDomaineExact | projectRasa/database/database.py:524-531 | sorted by institution name, no duplicate row, and a row is present iff some program of that institution is linked to a matching domain |
| Queries.FilterSame | projectRasa/database/database.py:283 | two WHERE conditions that agree on every row select the same rows |
| Util.SortBy | projectRasa/database/database.py:435 | `ORDER BY` as a stable insertion sort: the result is a permutation of the rows (ordered by `SortBySorted`) |
| Util.Insert | projectRasa/database/database.py:435 | one insertion step of the sort: the result is the rows plus the new one, as a multiset |
| Util.Dedup | projectRasa/database/database.py:525 | `DISTINCT` keeps the first occurrence of each row: no duplicate remains and exactly the original rows are present |
| Util.SortBySorted | projectRasa/database/database.py:435 | under a total preorder the sort is ordered and a permutation |
| Util.SortByStable | projectRasa/actions/actions.py:299 | stability of `sorted`: for any rows that all sort as equal to one another, the sorted output lists them in input order (through `InsertStable`) |
| Util.InsertStable | projectRasa/database/database.py:435 | one insertion step places the new row after every row that sorts as equal to it |
| Util.InsertSorted | projectRasa/database/database.py:435 | inserting into a sorted sequence keeps it sorted and adds exactly that row |
| Util.PermutationKeepsNoDup | projectRasa/database/database.py:525-531 | sorting distinct rows keeps them distinct |
| Util.FilterSplit | projectRasa/actions/actions.py:387-388 | for two conditions no row meets both of, such as the two program types, the two filtered lists together hold at most all rows, and exactly all when every row meets one of them |
| Util.FilterAppend | projectRasa/actions/actions.py:326 | a comprehension keeps order and repeats: filtering distributes over concatenation |
| Util.FilterSingle | projectRasa/actions/actions.py:326 | a single row is kept when it meets the condition and dropped otherwise |
| Util.MapMembers | projectRasa/actions/actions.py:48 | a rendered line is present iff it renders some row |
| Util.Prefix | projectRasa/actions/actions.py:48 | a slice `[:n]` keeps the first min(n, len) rows unchanged |
| Util.Map | projectRasa/actions/actions.py:48-53 | one rendered line per row, in order |
| Util.Filter | projectRasa/actions/actions.py:326 | a comprehension keeps exactly the rows that satisfy the condition and never more rows than it was given; order and repeats are stated by `FilterAppend` and `FilterSingle` |
| Text.Like | projectRasa/database/database.py:313 | `LIKE '%x%'` (also lines 349, 381, 498 and 530) and `x.lower() in y.lower()` (actions.py lines 289-290 and 369): case-insensitive containment; described by `ContainsAt` and `OccursLike` |
| Text.Lower | projectRasa/actions/actions.py:289 | `.lower()` on each character, ASCII letters only; described by `LowerAppend` |
| Text.LastWord | projectRasa/actions/actions.py:249 | `split()[-1]`, none when the name has no word; described by `LastWordIsLast` |
| Text.Capitalize | projectRasa/actions/actions.py:93 | `str.capitalize`: same length and same letters up to case (`Lower(r) == Lower(s)`); the first character is not a lower-case letter and no later one is an upper-case letter (ASCII letters only) |
| Text.ContainsAt | projectRasa/database/database.py:313 | `LIKE '%x%'` holds iff the pattern occurs at some position |
| Text.OccursLike | projectRasa/database/database.py:313 | an occurrence at a position makes `LIKE` hold |
| Text.LikeOfExtension | projectRasa/database/database.py:381 | any name extending a pattern is LIKE that pattern |
| Text.LowerAppend | projectRasa/actions/actions.py:289 | case folding distributes over concatenation |
| Text.StrLeTotal | projectRasa/database/database.py:474 | string order is total |
| Text.StrLeTrans | projectRasa/database/database.py:474 | string order is transitive |
| Text.TrimEndShape | projectRasa/actions/actions.py:249 | stripping trailing whitespace leaves a prefix that does not end in whitespace |
| Text.TrailingWordShape | projectRasa/actions/actions.py:249 | the trailing word contains no whitespace and ends the string |
| Text.LastWordIsLast | projectRasa/actions/actions.py:249 | `split()[-1]` fails iff the name is all whitespace; otherwise it is a non-empty whitespace-free suffix of the trimmed name, preceded by whitespace or nothing |
| Text.NonEmpty | projectRasa/actions/actions.py:100-111 | an optional line is present iff its field is non-empty, and it shows the field |
| Dialogue.Mentioning | projectRasa/actions/actions.py:289-290 | the per-item filter of the suggest handler, as `Filter` with the `Mentions` condition, so `FilterAppend` and `FilterSingle` fix its order; described by `MentioningMembers` |
| Dialogue.Ranked | projectRasa/actions/actions.py:306-310 | `enumerate(filieres, 1)`; described by `RankedShape` |
| Dialogue.Entries | projectRasa/actions/actions.py:426-438 | one entry per institution with its program count; described by `EntriesShape` |
| Dialogue.GuideOrientation | projectRasa/actions/actions.py:22-61 | the orientation reply; described by `GuideOrientationWithoutDomaine`, `GuideOrientationFallback` and `GuideOrientationResults` |
| Dialogue.DetailFiliere | projectRasa/actions/actions.py:67-113 | the detail reply; described by `DetailFiliereMiss` and `DetailFiliereHit` |
| Dialogue.ListeEtablissements | projectRasa/actions/actions.py:413-445 | the institution list; described by `ListeEtablissementsEntries` |
| Dialogue.GuidePreinscription | projectRasa/actions/actions.py:143-174 | the enrolment guide; described by `GuidePreinscriptionShows` |
| Dialogue.ScienceListing | projectRasa/actions/actions.py:184-199 | a Faculté des Sciences listing of one program type; described by `ScienceListingTakesLongerNames` |
| Dialogue.FilieresProfessionnellesScience | projectRasa/actions/actions.py:180-200 | the professional science listing; its handler is `ActionFiliereProfessionnelleScience` |
| Dialogue.FilieresClassiquesScience | projectRasa/actions/actions.py:206-226 | the classic science listing; described by `ClassiqueScienceListsDroitPrive` |
| Dialogue.ComparerFilieres | projectRasa/actions/actions.py:232-267 | the comparison reply; described by `ComparerFilieresReplies` |
| Dialogue.SuggestCandidates | projectRasa/actions/actions.py:284-293 | the candidates of the suggest handler; described by `SuggestCandidatesExact` |
| Dialogue.SuggestFilieres | projectRasa/actions/actions.py:273-315 | the suggestion reply; described by `SuggestWithoutDomaine` and `SuggestionsRanked` |
| Dialogue.InformationsPratiques | projectRasa/actions/actions.py:321-348 | the practical-information reply; described by `InformationsPratiquesShows` |
| Dialogue.FilieresOf | projectRasa/actions/actions.py:378-407 | the reply once an institution is found; described by `FilieresOfSplit` and `FilieresOfEmpty` |
| Dialogue.FilieresEtablissementAsWritten | projectRasa/actions/actions.py:354-407 | the institution-programs reply as written, raising NameError on a miss; described by `FollowupRaisesNameError` |
| Dialogue.FilieresEtablissement | projectRasa/actions/actions.py:354-407 | the corrected institution-programs reply; described by `FollowupHandsOver` |
| Dialogue.Others | projectRasa/actions/actions.py:55-58 | the "and n more" count is present iff there are more than the cap, and it equals the excess |
| Dialogue.Shown | projectRasa/actions/actions.py:302-303 | the preference is echoed iff it is given |
| Dialogue.FindEtablissement | projectRasa/actions/actions.py:368-371 | none iff no institution name contains the fragment; otherwise a listed institution whose name does |
| Dialogue.FindEtablissementFirst | projectRasa/actions/actions.py:368-371 | the chosen institution is the first match in list order |
| DialogueFacts.MentioningMembers | projectRasa/actions/actions.py:289-290 | the per-item filter keeps exactly the rows whose description or name contains the domain, case-insensitively |
| DialogueFacts.RankedShape | projectRasa/actions/actions.py:306-310 | suggestions are numbered from 1 in order |
| DialogueFacts.EntriesShape | projectRasa/actions/actions.py:426-433 | one entry per institution, in order, counting that institution's programs |
| DialogueFacts.GuideOrientationWithoutDomaine | projectRasa/actions/actions.py:27-31 | without a domain, one clarification and no event, whatever the store holds |
| DialogueFacts.FilieresByDomaineEmpty | projectRasa/database/database.py:343-369 | the domain query is empty iff no joined program has a link to a matching domain |
| DialogueFacts.GuideOrientationFallback | projectRasa/actions/actions.py:36-43 | on an empty domain result: a not-found message, then every institution in order with its name and description, and no event |
| DialogueFacts.GuideOrientationResults | projectRasa/actions/actions.py:46-61 | the domain is echoed; the first min(5, n) rows with name, type, institution, duration and fee; the target icon iff 'professionnelle'; "n-5 others" iff n > 5; `SlotSet(domaine_interet)` |
| Actions.ActionGuideOrientation | projectRasa/actions/actions.py:22-61 | the handler's reply equals the orientation reply for the store's tables |
| DialogueFacts.DetailFiliereMiss | projectRasa/actions/actions.py:77-89 | on a lookup miss: up to 3 search results by name (matched by description, not name), or not-found; no event |
| DialogueFacts.DetailFiliereHit | projectRasa/actions/actions.py:90-113 | on a hit the card shows the stored program's name, its capitalized type, duration, fees, description and institution name; each optional line appears iff its field is non-empty, with the field's value; `SlotSet(filiere_choisie)` carries the stored name, which contains the fragment |
| Actions.ActionDetailFiliere | projectRasa/actions/actions.py:67-113 | the handler's reply equals the detail reply for the store's tables |
| DialogueFacts.ListeEtablissementsEntries | projectRasa/actions/actions.py:416-445 | an apology iff there is no institution; otherwise every institution in order with its name, type and description, a program count only when it is > 0, and the institution's own contact and site, each only when non-empty |
| Actions.ActionListeEtablissements | projectRasa/actions/actions.py:413-445 | the handler's reply equals the listing for the store's tables; each institution's count comes from one store call |
| DialogueFacts.GuidePreinscriptionShows | projectRasa/actions/actions.py:146-174 | the steps are a permutation of the table, shown by ascending number, each line carrying that sorted step's number and description, with its details line iff the details are non-empty, showing those details; every document in table order, marked required iff `obligatoire`; the dates are a permutation of the table, by ascending start, each line carrying that sorted date's event, start and year, with an end iff the end is non-empty and different from the start, showing that end |
| Actions.ActionGuidePreinscription | projectRasa/actions/actions.py:143-174 | the handler's reply equals the enrolment guide for the store's tables |
| DialogueFacts.ScienceListingTakesLongerNames | projectRasa/actions/actions.py:184 | every program of the requested type whose institution name extends "Faculté des Sciences" is listed |
| DialogueFacts.SeededDroitPrive | projectRasa/database/database.py:188-205 | in the seeded store, program 8 is the second "other" seed program and institution 3 is the law faculty |
| DialogueFacts.DroitPriveListed | projectRasa/actions/actions.py:210 | with program 8 and institution 3 as seeded, Droit Privé is in the science-faculty classique listing |
| DialogueFacts.ClassiqueScienceListsDroitPrive | projectRasa/actions/actions.py:210 | in the seeded store, the "classic science programs" reply lists Droit Privé of the law faculty, because `LIKE '%Faculté des Sciences%'` also matches "Faculté des Sciences Juridiques et Politiques" |
| Actions.ActionFiliereProfessionnelleScience | projectRasa/actions/actions.py:180-200 | the handler's reply equals the 'professionnelle' listing filtered on "Faculté des Sciences" |
| Actions.ActionFiliereClassiqueScience | projectRasa/actions/actions.py:206-226 | the handler's reply equals the 'classique' listing filtered on "Faculté des Sciences" |
| DialogueFacts.ComparedProgramIsFound | projectRasa/actions/actions.py:249 | the resolved program is itself among the results of the search on its last word |
| DialogueFacts.ComparerFilieresReplies | projectRasa/actions/actions.py:242-267 | a miss gives not-found; an all-whitespace name raises IndexError; with ≤ 1 result it shows that program's description; otherwise it compares exactly the first min(3, n) results, in order; no event |
| Actions.ActionComparerFiliere | projectRasa/actions/actions.py:232-267 | the handler's reply equals the comparison reply for the store's tables |
| DialogueFacts.SuggestWithoutDomaine | projectRasa/actions/actions.py:278-283 | without a domain, one clarification, whatever the store holds |
| DialogueFacts.SuggestCandidatesExact | projectRasa/actions/actions.py:284-293 | with a type preference, exactly the joined programs of that type whose name or description contains the domain; otherwise exactly the programs of the domain query |
| DialogueFacts.TopThreeOrdered | projectRasa/actions/actions.py:299-310 | min(3, n) suggestions, ranked 1, 2, 3, ascending by name |
| DialogueFacts.TopThreeAreCandidates | projectRasa/actions/actions.py:299-310 | each suggestion renders a candidate, with the first 100 characters of its description |
| DialogueFacts.TopThreeAreSmallest | projectRasa/actions/actions.py:299 | a candidate that is not shown is named no lower than every shown one |
| DialogueFacts.TopThreeAreDistinct | projectRasa/actions/actions.py:299 | the first three of the sorted candidates are a sub-multiset of the candidates: three distinct positions, no candidate repeated |
| DialogueFacts.SuggestionsOrdered | projectRasa/actions/actions.py:294-315 | the reply's echo, ranking, name order, excerpts and minimality, as in `SuggestionsRanked` |
| DialogueFacts.SuggestionsDistinct | projectRasa/actions/actions.py:299-305 | the reply's suggestions render, rank by rank, a sub-multiset of the candidates |
| DialogueFacts.SuggestionsRanked | projectRasa/actions/actions.py:294-315 | with candidates, one message echoing the domain and the preference only when set, and no event; its min(3, n) suggestions are ranked from 1, ascend by name, each renders a candidate with the first 100 characters of its description, they render distinct candidates (a sub-multiset of the candidates, so none is shown twice), and no candidate left out sorts before one shown |
| Actions.ActionSuggestFiliere | projectRasa/actions/actions.py:273-315 | the handler's reply equals the suggestion reply for the store's tables |
| DialogueFacts.InformationsPratiquesShows | projectRasa/actions/actions.py:324-348 | the required documents are named in table order with repeats kept (`Map` over `Filter`, whose order `FilterAppend` and `FilterSingle` fix), and exactly those are named; the calendar shows every date of the table (a permutation) by ascending start, each line carrying that sorted date's event and start, with an end iff the end is non-empty and different from the start, showing that end |
| Actions.ActionInformationsPratiques | projectRasa/actions/actions.py:321-348 | the handler's reply equals the practical-information reply for the store's tables |
| DialogueFacts.ChosenEtablissementIsFirst | projectRasa/actions/actions.py:366-371 | no institution is chosen iff no name contains the fragment; otherwise the first in list order that does |
| DialogueFacts.FilieresOfSplit | projectRasa/actions/actions.py:378-407 | the 'professionnelle' group and the 'classique' group are the matching rows in query order, repeats kept (`Filter`, whose order `FilterAppend` and `FilterSingle` fix), and hold exactly those rows; the total counts all rows, and the two groups cover it when every type is known; the institution's contact and site are always printed; `SlotSet(dernier_etablissement)` |
| DialogueFacts.ProgramGroups | projectRasa/actions/actions.py:386-388 | each type group holds exactly the lines of the rows of its type, and the two cover at most all rows, exactly all when every row has one of the two types |
| DialogueFacts.FilieresOfEmpty | projectRasa/actions/actions.py:380-382 | an institution without programs gets one message and no event |
| DialogueFacts.FollowupRaisesNameError | projectRasa/actions/actions.py:373-375 | as written, a lookup miss sends the not-found message and then raises NameError |
| DialogueFacts.FollowupRaisesOnEmptyStore | projectRasa/actions/actions.py:375 | concretely, "ENSPD" on an empty store raises NameError |
| DialogueFacts.FollowupHandsOver | projectRasa/actions/actions.py:373-375 | corrected: a lookup miss hands over to `action_liste_etablissements`; this is the only case where the as-written handler raises, and otherwise both agree |
| Actions.ActionFilieresEtablissement | projectRasa/actions/actions.py:354-407 | the handler's reply equals the corrected institution-programs reply; its search loop with `break` picks the first match |
| Actions.Render | projectRasa/actions/actions.py:48-53 | each `response +=` loop renders one line per row, in order |

## Left out

- SQLite plumbing is not part of this model: connections, cursors, commit/close, the DDL text and the database file path.
  - The store's tables are sequences in memory.
  - Column types (`INTEGER`, `TEXT`, `BOOLEAN`) are Dafny types.
- Foreign keys are not enforced, as in SQLite without the PRAGMA. The inner join simply drops programs whose institution is missing, and links whose domain is missing.
- Row order of a SELECT without `ORDER BY` is assumed to be table (insertion) order.
  - In joins, the program table is the outer loop and the link table the inner one.
  - A join partner is the first row with the id.
- Database.SortRows: ties under `ORDER BY` keep table order, because the sort is stable (`Util.SortByStable`). SQLite does not promise this.
- `LIKE` wildcards: `%` and `_` in user input are treated as ordinary characters.
- Case folding is ASCII-only, both for `LIKE` and for Python's `.lower()`.
  - Python folds accented capitals such as "É", and SQLite does not; the model does neither.
  - `str.split()` likewise splits only on the separators below 128 (space, `\t`, `\n`, `\v`, `\f`, `\r` and 0x1C-0x1F); the Unicode spaces such as U+0085 and U+00A0 are left out.
- Text.Capitalize: upper-cases the first character and lower-cases the rest, ASCII only. Unicode case rules are left out.
- SQL NULL and Python `None` in text columns are modelled as the empty string. So the `AttributeError` that `None.lower()` would raise on a NULL description is not modelled (the seed data has none).
- AUTOINCREMENT is modelled as "table length + 1". Ids of deleted rows are not modelled, since nothing deletes.
- Rasa SDK types are left out.
  - The tracker becomes optional input values (an absent or empty value is not `Given`).
  - The dispatcher becomes the list of messages in the reply.
  - `SlotSet` and `FollowupAction` become `Event` values.
- The module-level singleton `db` (projectRasa/actions/actions.py:16) is passed to each handler explicitly.
- The first `ActionListeEtablissements` (projectRasa/actions/actions.py:115-137) is shadowed by the second one, so only the second is modelled.
- Logging, emoji and the Markdown wording of messages are left out. Messages are structured values carrying the records, the order, the optional fields and the counts they show.
- Database.UniversityDatabase.constructor: the table creation step of `init_database` is modelled by passing in the existing tables.
- Suggest handler: the inner `for f in [f]` of projectRasa/actions/actions.py:289-290 loops over a one-element list built from the outer `f`. So `any(...)` tests that one element, and the comprehension is a per-item filter over every candidate, which is what `Dialogue.Mentioning` models.

## Findings

| source | as written | input that shows it | evidently intended | confidence | as-written member | corrected member |
|---|---|---|---|---|---|---|
| projectRasa/actions/actions.py:375 | the not-found branch returns `[FollowupAction("action_liste_etablissements")]`, but `FollowupAction` is never imported (only `SlotSet` is, at line 9), so the branch raises NameError after its message | entity "ENSPD" with an empty institution table, or any name that matches no institution | hand over to the institution list | high, not executed | DialogueFacts.FollowupRaisesOnEmptyStore | DialogueFacts.FollowupHandsOver |
