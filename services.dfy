/**
 * The server-side services over the project tables: creating a project with its default
 * notebooks, deleting a project with everything that hangs off it, the per-user writing
 * statistics, the daily writing-session upsert, and the order of the list queries.
 * Each table is a sequence of rows in table order; generated ids are given by the caller.
 */
module Services {
  import opened Wrappers
  import opened Ordering

  datatype ProjectData = ProjectData(
    title: string, description: Option<string>, genre: Option<string>, targetWordCount: Option<int>)

  datatype ProjectRow = ProjectRow(id: string, userId: string, data: ProjectData, status: string, updatedAt: int)

  datatype NotebookRow = NotebookRow(
    id: string, projectId: string, title: string, kind: string, sortOrder: int, contributesToWordCount: bool)

  datatype DocumentRow = DocumentRow(id: string, notebookId: string, title: string, wordCount: int, sortOrder: int)

  datatype CharacterRow = CharacterRow(id: string, projectId: string, name: string)

  /** An AI suggestion stored against a document. */
  datatype SuggestionRow = SuggestionRow(id: string, documentId: string)

  /** One user's writing on one day (a day number; the column holds its `YYYY-MM-DD` text). */
  datatype StatRow = StatRow(
    id: string, userId: string, projectId: Option<string>, date: int,
    wordsWritten: int, timeSpent: int, sessionsCount: int)

  datatype WritingStatistics = WritingStatistics(projectCount: int, totalWords: int, totalTime: int, weeklyWords: int)

  const NoStatistics := WritingStatistics(0, 0, 0, 0)

  // ---------------------------------------------------------------------------
  // Default notebooks

  /** Title and type of each default notebook, in creation order. */
  function DefaultNotebookKinds(): seq<(string, string)> {
    [("Chapters", "chapters"), ("Characters", "characters"), ("Plot & Structure", "plot"),
     ("Research & Notes", "research"), ("General Notes", "notes")]
  }

  function DefaultNotebook(projectId: string, id: string, index: nat): NotebookRow
    requires index < 5
  {
    var kind := DefaultNotebookKinds()[index];
    NotebookRow(id, projectId, kind.0, kind.1, index, false)
  }

  /** The five rows `createDefaultNotebooks` inserts, with the given generated ids. */
  function DefaultNotebooks(projectId: string, ids: seq<string>): (r: seq<NotebookRow>)
    requires |ids| == 5
    ensures |r| == 5
  {
    seq(5, i requires 0 <= i < 5 => DefaultNotebook(projectId, ids[i], i))
  }

  /** Five notebooks of the new project, titled and typed as listed, numbered 0 to 4. */
  lemma DefaultNotebooksShape(projectId: string, ids: seq<string>)
    requires |ids| == 5
    ensures var r := DefaultNotebooks(projectId, ids);
            && (forall i :: 0 <= i < 5 ==> r[i].projectId == projectId && r[i].sortOrder == i && r[i].id == ids[i])
            && [r[0].title, r[1].title, r[2].title, r[3].title, r[4].title]
               == ["Chapters", "Characters", "Plot & Structure", "Research & Notes", "General Notes"]
            && [r[0].kind, r[1].kind, r[2].kind, r[3].kind, r[4].kind]
               == ["chapters", "characters", "plot", "research", "notes"]
  {
  }

  // ---------------------------------------------------------------------------
  // The cascade of a project deletion

  /** Ids of the notebooks of a project. */
  function NotebooksOf(notebooks: seq<NotebookRow>, projectId: string): set<string> {
    set nb | nb in notebooks && nb.projectId == projectId :: nb.id
  }

  /** Ids of the documents in the given notebooks. */
  function DocumentsIn(documents: seq<DocumentRow>, notebookIds: set<string>): set<string> {
    set d | d in documents && d.notebookId in notebookIds :: d.id
  }

  /** The suggestions that do not belong to any of the given documents, in table order. */
  function WithoutSuggestionsOf(suggestions: seq<SuggestionRow>, docs: set<string>): (r: seq<SuggestionRow>)
    ensures forall x :: x in r <==> x in suggestions && x.documentId !in docs
  {
    if suggestions == [] then []
    else if suggestions[0].documentId in docs then WithoutSuggestionsOf(suggestions[1..], docs)
    else [suggestions[0]] + WithoutSuggestionsOf(suggestions[1..], docs)
  }

  /** The documents that do not belong to any of the given notebooks, in table order. */
  function WithoutDocumentsOf(documents: seq<DocumentRow>, notebookIds: set<string>): (r: seq<DocumentRow>)
    ensures forall x :: x in r <==> x in documents && x.notebookId !in notebookIds
  {
    if documents == [] then []
    else if documents[0].notebookId in notebookIds then WithoutDocumentsOf(documents[1..], notebookIds)
    else [documents[0]] + WithoutDocumentsOf(documents[1..], notebookIds)
  }

  /** Deleting the suggestions of `a`, then those of `b`, deletes those of both. */
  lemma {:induction false} WithoutSuggestionsTwice(suggestions: seq<SuggestionRow>, a: set<string>, b: set<string>)
    ensures WithoutSuggestionsOf(WithoutSuggestionsOf(suggestions, a), b) == WithoutSuggestionsOf(suggestions, a + b)
  {
    if suggestions != [] {
      WithoutSuggestionsTwice(suggestions[1..], a, b);
      if suggestions[0].documentId !in a {
        var once := WithoutSuggestionsOf(suggestions, a);
        assert once == [suggestions[0]] + WithoutSuggestionsOf(suggestions[1..], a);
        assert once[1..] == WithoutSuggestionsOf(suggestions[1..], a);
      }
    }
  }

  /** Deleting the documents of `a`, then those of `b`, deletes those of both. */
  lemma {:induction false} WithoutDocumentsTwice(documents: seq<DocumentRow>, a: set<string>, b: set<string>)
    ensures WithoutDocumentsOf(WithoutDocumentsOf(documents, a), b) == WithoutDocumentsOf(documents, a + b)
  {
    if documents != [] {
      WithoutDocumentsTwice(documents[1..], a, b);
      if documents[0].notebookId !in a {
        var once := WithoutDocumentsOf(documents, a);
        assert once == [documents[0]] + WithoutDocumentsOf(documents[1..], a);
        assert once[1..] == WithoutDocumentsOf(documents[1..], a);
      }
    }
  }

  /** Deleting for no ids deletes nothing. */
  lemma {:induction false} WithoutNoSuggestions(suggestions: seq<SuggestionRow>)
    ensures WithoutSuggestionsOf(suggestions, {}) == suggestions
  {
    if suggestions != [] {
      WithoutNoSuggestions(suggestions[1..]);
    }
  }

  lemma {:induction false} WithoutNoDocuments(documents: seq<DocumentRow>)
    ensures WithoutDocumentsOf(documents, {}) == documents
  {
    if documents != [] {
      WithoutNoDocuments(documents[1..]);
    }
  }

  function Ids(docs: seq<DocumentRow>): set<string> {
    set d | d in docs :: d.id
  }

  // ---------------------------------------------------------------------------
  // Statistics

  /** Words of the documents of one notebook. */
  function NotebookWords(documents: seq<DocumentRow>, notebookId: string): int {
    Sum(Keep(documents, (d: DocumentRow) => d.notebookId == notebookId), (d: DocumentRow) => d.wordCount)
  }

  /** The notebooks of the user's projects (the inner join on the project id). */
  function UserNotebooks(projects: seq<ProjectRow>, notebooks: seq<NotebookRow>, userId: string): seq<NotebookRow> {
    Keep(notebooks, (nb: NotebookRow) => exists p :: p in projects && p.id == nb.projectId && p.userId == userId)
  }

  function TotalWords(notebooks: seq<NotebookRow>, documents: seq<DocumentRow>): int {
    Sum(notebooks, (nb: NotebookRow) => NotebookWords(documents, nb.id))
  }

  lemma TotalWordsAppend(nbs: seq<NotebookRow>, nb: NotebookRow, documents: seq<DocumentRow>)
    ensures TotalWords(nbs + [nb], documents) == TotalWords(nbs, documents) + NotebookWords(documents, nb.id)
  {
    SumAppend(nbs, [nb], (n: NotebookRow) => NotebookWords(documents, n.id));
  }

  /** `Math.round(n / d)` for a positive divisor. */
  function RoundDiv(n: int, d: int): (q: int)
    requires d > 0
    ensures 2 * d * q - d <= 2 * n < 2 * d * q + d
  {
    (2 * n + d) / (2 * d)
  }

  function UserStats(stats: seq<StatRow>, userId: string): seq<StatRow> {
    Keep(stats, (s: StatRow) => s.userId == userId)
  }

  function Statistics(projects: seq<ProjectRow>, notebooks: seq<NotebookRow>, documents: seq<DocumentRow>,
                      stats: seq<StatRow>, userId: string, today: int): (r: WritingStatistics)
    ensures 0 <= r.projectCount <= |projects|
    ensures (forall k :: 0 <= k < |stats| ==> stats[k].userId != userId) ==> r.totalTime == 0 && r.weeklyWords == 0
  {
    var mine := UserStats(stats, userId);
    WritingStatistics(
      Count(projects, (p: ProjectRow) => p.userId == userId),
      TotalWords(UserNotebooks(projects, notebooks, userId), documents),
      RoundDiv(Sum(mine, (s: StatRow) => s.timeSpent), 60),
      Sum(Keep(mine, (s: StatRow) => s.date >= today - 7), (s: StatRow) => s.wordsWritten))
  }

  /** Whether a notebook counts towards the word total plays no part in it. */
  lemma {:induction false} TotalWordsIgnoresContributes(notebooks: seq<NotebookRow>, documents: seq<DocumentRow>,
                                                        flags: seq<bool>)
    requires |flags| == |notebooks|
    ensures TotalWords(seq(|notebooks|, i requires 0 <= i < |notebooks| =>
                               notebooks[i].(contributesToWordCount := flags[i])), documents)
            == TotalWords(notebooks, documents)
  {
    var flipped := seq(|notebooks|, i requires 0 <= i < |notebooks| => notebooks[i].(contributesToWordCount := flags[i]));
    if notebooks != [] {
      TotalWordsIgnoresContributes(notebooks[1..], documents, flags[1..]);
      assert flipped[1..] == seq(|notebooks[1..]|, i requires 0 <= i < |notebooks[1..]| =>
                                   notebooks[1..][i].(contributesToWordCount := flags[1..][i]));
    }
  }

  /** With non-negative word counts, the week's words never exceed the user's total. */
  lemma WeeklyAtMostAll(stats: seq<StatRow>, userId: string, today: int)
    requires forall i :: 0 <= i < |stats| ==> stats[i].wordsWritten >= 0
    ensures var mine := UserStats(stats, userId);
            0 <= Sum(Keep(mine, (s: StatRow) => s.date >= today - 7), (s: StatRow) => s.wordsWritten)
            <= Sum(mine, (s: StatRow) => s.wordsWritten)
  {
    var mine := UserStats(stats, userId);
    SumKeepAtMost(mine, (s: StatRow) => s.date >= today - 7, (s: StatRow) => s.wordsWritten);
    var week := Keep(mine, (s: StatRow) => s.date >= today - 7);
    SumNonNegative(week, (s: StatRow) => s.wordsWritten);
  }

  lemma {:induction false} SumKeepAtMost<T(!new)>(s: seq<T>, p: T -> bool, f: T -> int)
    requires forall x :: x in s ==> f(x) >= 0
    ensures Sum(Keep(s, p), f) <= Sum(s, f)
  {
    if s != [] {
      SumKeepAtMost(s[1..], p, f);
      if p(s[0]) {
        assert Keep(s, p) == [s[0]] + Keep(s[1..], p);
      }
    }
  }

  // ---------------------------------------------------------------------------
  // The writing-session upsert

  predicate SameDay(s: StatRow, userId: string, projectId: string, today: int) {
    s.userId == userId && s.projectId == Some(projectId) && s.date == today
  }

  /** The first row of (user, project, today), as the query's first result. */
  function FindStat(stats: seq<StatRow>, userId: string, projectId: string, today: int): (i: Option<nat>)
    ensures i.Some? ==> i.value < |stats| && SameDay(stats[i.value], userId, projectId, today)
    ensures i.Some? ==> forall k :: 0 <= k < i.value ==> !SameDay(stats[k], userId, projectId, today)
    ensures i.None? ==> forall k :: 0 <= k < |stats| ==> !SameDay(stats[k], userId, projectId, today)
  {
    if stats == [] then None
    else if SameDay(stats[0], userId, projectId, today) then Some(0)
    else
      var rest := FindStat(stats[1..], userId, projectId, today);
      if rest.Some? then Some(rest.value + 1) else None
  }

  /** The table after recording a session: the day's row grows, or a new row starts the day. */
  /** The day's row after one more session of `w` words and `t` time. */
  function Accumulated(s: StatRow, w: int, t: int): StatRow {
    s.(wordsWritten := s.wordsWritten + w, timeSpent := s.timeSpent + t, sessionsCount := s.sessionsCount + 1)
  }

  /** The update-or-insert of `recordWritingSession`: afterwards the day has a row, and a row
      is added only when it had none. */
  function Upsert(stats: seq<StatRow>, freshId: string, userId: string, projectId: string, today: int,
                  wordsWritten: int, timeSpent: int): (r: seq<StatRow>)
    ensures |r| == |stats| + (if FindStat(stats, userId, projectId, today).Some? then 0 else 1)
    ensures exists k :: 0 <= k < |r| && SameDay(r[k], userId, projectId, today)
  {
    var found := FindStat(stats, userId, projectId, today);
    if found.Some? then
      var r := stats[found.value := Accumulated(stats[found.value], wordsWritten, timeSpent)];
      assert SameDay(r[found.value], userId, projectId, today);
      r
    else
      var r := stats + [StatRow(freshId, userId, Some(projectId), today, wordsWritten, timeSpent, 1)];
      assert SameDay(r[|stats|], userId, projectId, today);
      r
  }

  /** The rows of one user, project and day. */
  function DayRows(stats: seq<StatRow>, userId: string, projectId: string, today: int): seq<StatRow> {
    Keep(stats, (s: StatRow) => SameDay(s, userId, projectId, today))
  }

  /** The rows of every other user, project or day. */
  function OtherRows(stats: seq<StatRow>, userId: string, projectId: string, today: int): seq<StatRow> {
    Keep(stats, (s: StatRow) => !SameDay(s, userId, projectId, today))
  }

  function WordsOf(rows: seq<StatRow>): int {
    Sum(rows, (s: StatRow) => s.wordsWritten)
  }

  function TimeOf(rows: seq<StatRow>): int {
    Sum(rows, (s: StatRow) => s.timeSpent)
  }

  function SessionsOf(rows: seq<StatRow>): int {
    Sum(rows, (s: StatRow) => s.sessionsCount)
  }

  /** Recording a session adds its words, its time and one session to the day's rows of the
      user and project. */
  lemma UpsertAccumulates(stats: seq<StatRow>, freshId: string, userId: string, projectId: string, today: int,
                          w: int, t: int)
    ensures WordsOf(DayRows(Upsert(stats, freshId, userId, projectId, today, w, t), userId, projectId, today))
            == WordsOf(DayRows(stats, userId, projectId, today)) + w
    ensures TimeOf(DayRows(Upsert(stats, freshId, userId, projectId, today, w, t), userId, projectId, today))
            == TimeOf(DayRows(stats, userId, projectId, today)) + t
    ensures SessionsOf(DayRows(Upsert(stats, freshId, userId, projectId, today, w, t), userId, projectId, today))
            == SessionsOf(DayRows(stats, userId, projectId, today)) + 1
  {
    var found := FindStat(stats, userId, projectId, today);
    if found.Some? {
      UpsertUpdatesRow(stats, found.value, userId, projectId, today, w, t);
    } else {
      UpsertInsertsRow(stats, freshId, userId, projectId, today, w, t);
    }
  }

  lemma UpsertUpdatesRow(stats: seq<StatRow>, i: nat, userId: string, projectId: string, today: int, w: int, t: int)
    requires i < |stats| && SameDay(stats[i], userId, projectId, today)
    ensures var after := stats[i := Accumulated(stats[i], w, t)];
            && WordsOf(DayRows(after, userId, projectId, today)) == WordsOf(DayRows(stats, userId, projectId, today)) + w
            && TimeOf(DayRows(after, userId, projectId, today)) == TimeOf(DayRows(stats, userId, projectId, today)) + t
            && SessionsOf(DayRows(after, userId, projectId, today)) == SessionsOf(DayRows(stats, userId, projectId, today)) + 1
            && OtherRows(after, userId, projectId, today) == OtherRows(stats, userId, projectId, today)
  {
    var row := Accumulated(stats[i], w, t);
    var day := (r: StatRow) => SameDay(r, userId, projectId, today);
    SumKeepUpdate(stats, i, row, day, (r: StatRow) => r.wordsWritten);
    SumKeepUpdate(stats, i, row, day, (r: StatRow) => r.timeSpent);
    SumKeepUpdate(stats, i, row, day, (r: StatRow) => r.sessionsCount);
    KeepUpdate(stats, i, row, (r: StatRow) => !SameDay(r, userId, projectId, today));
  }

  lemma UpsertInsertsRow(stats: seq<StatRow>, freshId: string, userId: string, projectId: string, today: int,
                         w: int, t: int)
    ensures var after := stats + [StatRow(freshId, userId, Some(projectId), today, w, t, 1)];
            && WordsOf(DayRows(after, userId, projectId, today)) == WordsOf(DayRows(stats, userId, projectId, today)) + w
            && TimeOf(DayRows(after, userId, projectId, today)) == TimeOf(DayRows(stats, userId, projectId, today)) + t
            && SessionsOf(DayRows(after, userId, projectId, today)) == SessionsOf(DayRows(stats, userId, projectId, today)) + 1
            && OtherRows(after, userId, projectId, today) == OtherRows(stats, userId, projectId, today)
  {
    var row := StatRow(freshId, userId, Some(projectId), today, w, t, 1);
    var day := (r: StatRow) => SameDay(r, userId, projectId, today);
    SumKeepAppendOne(stats, row, day, (r: StatRow) => r.wordsWritten);
    SumKeepAppendOne(stats, row, day, (r: StatRow) => r.timeSpent);
    SumKeepAppendOne(stats, row, day, (r: StatRow) => r.sessionsCount);
    KeepAppendOne(stats, row, (r: StatRow) => !SameDay(r, userId, projectId, today));
  }

  /** Rows of any other day, user or project are untouched by the upsert. */
  lemma UpsertKeepsOtherRows(stats: seq<StatRow>, freshId: string, userId: string, projectId: string, today: int,
                             w: int, t: int)
    ensures OtherRows(Upsert(stats, freshId, userId, projectId, today, w, t), userId, projectId, today)
            == OtherRows(stats, userId, projectId, today)
  {
    var found := FindStat(stats, userId, projectId, today);
    if found.Some? {
      UpsertUpdatesRow(stats, found.value, userId, projectId, today, w, t);
    } else {
      UpsertInsertsRow(stats, freshId, userId, projectId, today, w, t);
    }
  }

  // ---------------------------------------------------------------------------
  // The list queries and their ORDER BY

  predicate NewerOrSame(a: ProjectRow, b: ProjectRow) {
    a.updatedAt >= b.updatedAt
  }

  predicate NotebookBefore(a: NotebookRow, b: NotebookRow) {
    a.sortOrder <= b.sortOrder
  }

  predicate DocumentBefore(a: DocumentRow, b: DocumentRow) {
    a.sortOrder <= b.sortOrder
  }

  predicate NameBefore(a: CharacterRow, b: CharacterRow) {
    LexLe(a.name, b.name)
  }

  /** `getUserProjects`: the user's projects, most recently updated first. */
  function GetUserProjects(projects: seq<ProjectRow>, userId: string): (r: seq<ProjectRow>)
    ensures SortedBy(r, NewerOrSame)
    ensures forall p :: p in r <==> p in projects && p.userId == userId
    ensures |r| == Count(projects, (p: ProjectRow) => p.userId == userId)
  {
    var mine := Keep(projects, (p: ProjectRow) => p.userId == userId);
    SortBySameRows(mine, NewerOrSame);
    SortBy(mine, NewerOrSame)
  }

  /** `getProjectNotebooks`: the project's notebooks by sort order. */
  function GetProjectNotebooks(notebooks: seq<NotebookRow>, projectId: string): (r: seq<NotebookRow>)
    ensures SortedBy(r, NotebookBefore)
    ensures forall nb :: nb in r <==> nb in notebooks && nb.projectId == projectId
  {
    var mine := Keep(notebooks, (nb: NotebookRow) => nb.projectId == projectId);
    SortBySameRows(mine, NotebookBefore);
    SortBy(mine, NotebookBefore)
  }

  /** `getNotebookDocuments`: the notebook's documents by sort order. */
  function GetNotebookDocuments(documents: seq<DocumentRow>, notebookId: string): (r: seq<DocumentRow>)
    ensures SortedBy(r, DocumentBefore)
    ensures forall d :: d in r <==> d in documents && d.notebookId == notebookId
  {
    var mine := Keep(documents, (d: DocumentRow) => d.notebookId == notebookId);
    SortBySameRows(mine, DocumentBefore);
    SortBy(mine, DocumentBefore)
  }

  /** `getProjectCharacters`: the project's characters by name. */
  function GetProjectCharacters(characters: seq<CharacterRow>, projectId: string): (r: seq<CharacterRow>)
    ensures SortedBy(r, NameBefore)
    ensures forall c :: c in r <==> c in characters && c.projectId == projectId
  {
    var mine := Keep(characters, (c: CharacterRow) => c.projectId == projectId);
    NameBeforeIsTotalPreorder();
    SortBySameRows(mine, NameBefore);
    SortBy(mine, NameBefore)
  }

  lemma NameBeforeIsTotalPreorder()
    ensures TotalPreorder(NameBefore)
  {
    forall a: CharacterRow, b: CharacterRow
      ensures NameBefore(a, b) || NameBefore(b, a)
    {
      LexLeTotal(a.name, b.name);
    }
    forall a: CharacterRow, b: CharacterRow, c: CharacterRow | NameBefore(a, b) && NameBefore(b, c)
      ensures NameBefore(a, c)
    {
      LexLeTransitive(a.name, b.name, c.name);
    }
  }

  // ---------------------------------------------------------------------------
  // The tables

  /** The error the database raises when a delete or an insert would leave a row referring to
      a project that is not there. */
  const ForeignKeyViolation := "violates foreign key constraint"

  predicate ProjectExists(projects: seq<ProjectRow>, projectId: string) {
    exists p :: p in projects && p.id == projectId
  }

  class Database {
    var projects: seq<ProjectRow>
    var notebooks: seq<NotebookRow>
    var documents: seq<DocumentRow>
    var characters: seq<CharacterRow>
    var suggestions: seq<SuggestionRow>
    var stats: seq<StatRow>
    /** The projects some social post refers to (`social_post.project_id`, with no cascade);
        the posts themselves belong to the friends page. */
    var postedProjects: set<string>

    constructor()
      ensures projects == [] && notebooks == [] && documents == [] && characters == []
      ensures suggestions == [] && stats == [] && postedProjects == {}
    {
      projects, notebooks, documents, characters, suggestions, stats := [], [], [], [], [], [];
      postedProjects := {};
    }

    /** `createProject`: the project row, then its five default notebooks. */
    method CreateProject(userId: string, data: ProjectData, projectId: string, notebookIds: seq<string>, now: int)
      returns (created: ProjectRow)
      requires |notebookIds| == 5
      modifies this
      ensures created == ProjectRow(projectId, userId, data, "draft", now)
      ensures projects == old(projects) + [created]
      ensures notebooks == old(notebooks) + DefaultNotebooks(projectId, notebookIds)
      ensures documents == old(documents) && characters == old(characters)
      ensures suggestions == old(suggestions) && stats == old(stats)
    {
      created := ProjectRow(projectId, userId, data, "draft", now);
      projects := projects + [created];
      CreateDefaultNotebooks(projectId, notebookIds);
    }

    method CreateDefaultNotebooks(projectId: string, ids: seq<string>)
      requires |ids| == 5
      modifies this
      ensures notebooks == old(notebooks) + DefaultNotebooks(projectId, ids)
      ensures projects == old(projects) && documents == old(documents) && characters == old(characters)
      ensures suggestions == old(suggestions) && stats == old(stats)
    {
      var defaults := DefaultNotebookKinds();
      for index := 0 to 5
        invariant notebooks == old(notebooks) + DefaultNotebooks(projectId, ids)[..index]
        invariant projects == old(projects) && documents == old(documents) && characters == old(characters)
        invariant suggestions == old(suggestions) && stats == old(stats)
      {
        var nb := defaults[index];
        notebooks := notebooks + [NotebookRow(ids[index], projectId, nb.0, nb.1, index, false)];
        assert DefaultNotebooks(projectId, ids)[..index + 1]
               == DefaultNotebooks(projectId, ids)[..index] + [DefaultNotebook(projectId, ids[index], index)];
      }
      assert DefaultNotebooks(projectId, ids)[..5] == DefaultNotebooks(projectId, ids);
    }

    /** `deleteProject`: refused unless the user owns the project; otherwise the suggestions of
        its documents, its documents, notebooks, characters and statistics go, and then the
        project. No transaction wraps the deletes, so when a social post still refers to the
        project the last delete fails and everything before it stays deleted. */
    method DeleteProject(projectId: string, userId: string) returns (r: Result<(), string>)
      modifies this
      ensures r == Err("Project not found") <==>
                !(exists p :: p in old(projects) && p.id == projectId && p.userId == userId)
      ensures r.Ok? <==>
                (exists p :: p in old(projects) && p.id == projectId && p.userId == userId)
                && projectId !in postedProjects
      ensures r.Err? ==> r.error in {"Project not found", ForeignKeyViolation}
      ensures r == Err("Project not found") ==>
                && projects == old(projects) && notebooks == old(notebooks) && documents == old(documents)
                && characters == old(characters) && suggestions == old(suggestions) && stats == old(stats)
      ensures r != Err("Project not found") ==>
                && suggestions == WithoutSuggestionsOf(old(suggestions),
                                    DocumentsIn(old(documents), NotebooksOf(old(notebooks), projectId)))
                && documents == WithoutDocumentsOf(old(documents), NotebooksOf(old(notebooks), projectId))
                && notebooks == Keep(old(notebooks), (nb: NotebookRow) => nb.projectId != projectId)
                && characters == Keep(old(characters), (c: CharacterRow) => c.projectId != projectId)
                && stats == Keep(old(stats), (s: StatRow) => s.projectId != Some(projectId))
      ensures r.Ok? ==>
                projects == Keep(old(projects), (p: ProjectRow) => !(p.id == projectId && p.userId == userId))
      ensures r == Err(ForeignKeyViolation) ==> projects == old(projects)
      ensures postedProjects == old(postedProjects)
    {
      if !(exists i :: 0 <= i < |projects| && projects[i].id == projectId && projects[i].userId == userId) {
        return Err("Project not found");
      }
      ghost var oldDocs := documents;
      ghost var oldSuggestions := suggestions;
      var projectNotebooks := Keep(notebooks, (nb: NotebookRow) => nb.projectId == projectId);
      assert NotebookIdsOf(projectNotebooks[..0]) == {};
      assert DocumentsIn(oldDocs, {}) == {};
      WithoutNoSuggestions(oldSuggestions);
      WithoutNoDocuments(oldDocs);
      for k := 0 to |projectNotebooks|
        invariant documents == WithoutDocumentsOf(oldDocs, NotebookIdsOf(projectNotebooks[..k]))
        invariant suggestions == WithoutSuggestionsOf(oldSuggestions, DocumentsIn(oldDocs, NotebookIdsOf(projectNotebooks[..k])))
        invariant projects == old(projects) && notebooks == old(notebooks)
        invariant characters == old(characters) && stats == old(stats) && postedProjects == old(postedProjects)
      {
        var nb := projectNotebooks[k];
        ghost var done := NotebookIdsOf(projectNotebooks[..k]);
        DeleteNotebookContents(nb.id, oldDocs, oldSuggestions, done);
        NotebookIdsOfPrefix(projectNotebooks, k);
      }
      assert projectNotebooks[..|projectNotebooks|] == projectNotebooks;
      assert NotebookIdsOf(projectNotebooks) == NotebooksOf(old(notebooks), projectId);
      DeleteProjectRows(projectId);
      if projectId in postedProjects {
        return Err(ForeignKeyViolation);
      }
      projects := Keep(projects, (p: ProjectRow) => !(p.id == projectId && p.userId == userId));
      return Ok(());
    }

    /** Steps 3 to 5 of `deleteProject`: notebooks, characters, statistics. */
    method DeleteProjectRows(projectId: string)
      modifies this
      ensures notebooks == Keep(old(notebooks), (nb: NotebookRow) => nb.projectId != projectId)
      ensures characters == Keep(old(characters), (c: CharacterRow) => c.projectId != projectId)
      ensures stats == Keep(old(stats), (s: StatRow) => s.projectId != Some(projectId))
      ensures projects == old(projects) && documents == old(documents) && suggestions == old(suggestions)
      ensures postedProjects == old(postedProjects)
    {
      notebooks := Keep(notebooks, (nb: NotebookRow) => nb.projectId != projectId);
      characters := Keep(characters, (c: CharacterRow) => c.projectId != projectId);
      stats := Keep(stats, (s: StatRow) => s.projectId != Some(projectId));
    }

    /** One turn of the notebook loop: the suggestions of each of the notebook's documents,
        then the notebook's documents. */
    method DeleteNotebookContents(notebookId: string, ghost oldDocs: seq<DocumentRow>,
                                  ghost oldSuggestions: seq<SuggestionRow>, ghost done: set<string>)
      requires documents == WithoutDocumentsOf(oldDocs, done)
      requires suggestions == WithoutSuggestionsOf(oldSuggestions, DocumentsIn(oldDocs, done))
      modifies this
      ensures documents == WithoutDocumentsOf(oldDocs, done + {notebookId})
      ensures suggestions == WithoutSuggestionsOf(oldSuggestions, DocumentsIn(oldDocs, done + {notebookId}))
      ensures projects == old(projects) && notebooks == old(notebooks)
      ensures characters == old(characters) && stats == old(stats) && postedProjects == old(postedProjects)
    {
      var notebookDocuments := Keep(documents, (d: DocumentRow) => d.notebookId == notebookId);
      DeleteSuggestionsOf(notebookDocuments, oldSuggestions, DocumentsIn(oldDocs, done));
      NotebookDocumentIds(oldDocs, done, notebookId);
      WithoutDocumentsTwice(oldDocs, done, {notebookId});
      documents := WithoutDocumentsOf(documents, {notebookId});
    }

    /** The inner loop: the suggestions of each document in turn. */
    method DeleteSuggestionsOf(docs: seq<DocumentRow>, ghost oldSuggestions: seq<SuggestionRow>,
                               ghost before: set<string>)
      requires suggestions == WithoutSuggestionsOf(oldSuggestions, before)
      modifies this
      ensures suggestions == WithoutSuggestionsOf(oldSuggestions, before + Ids(docs))
      ensures projects == old(projects) && notebooks == old(notebooks) && documents == old(documents)
      ensures characters == old(characters) && stats == old(stats) && postedProjects == old(postedProjects)
    {
      assert Ids(docs[..0]) == {};
      assert before + Ids(docs[..0]) == before;
      for j := 0 to |docs|
        invariant suggestions == WithoutSuggestionsOf(oldSuggestions, before + Ids(docs[..j]))
        invariant projects == old(projects) && notebooks == old(notebooks) && documents == old(documents)
        invariant characters == old(characters) && stats == old(stats) && postedProjects == old(postedProjects)
      {
        var docId := docs[j].id;
        ghost var gone := before + Ids(docs[..j]);
        IdsOfPrefix(docs, j);
        assert gone + {docId} == before + Ids(docs[..j + 1]);
        WithoutSuggestionsTwice(oldSuggestions, gone, {docId});
        suggestions := WithoutSuggestionsOf(suggestions, {docId});
      }
      assert docs[..|docs|] == docs;
    }

    /** `getUserWritingStatistics`; `storeFails` says whether a query throws. */
    method GetUserWritingStatistics(userId: string, today: int, storeFails: bool)
      returns (result: WritingStatistics)
      ensures storeFails ==> result == NoStatistics
      ensures !storeFails ==> result == Statistics(projects, notebooks, documents, stats, userId, today)
    {
      if storeFails {
        return NoStatistics;
      }
      var userNotebooks := UserNotebooks(projects, notebooks, userId);
      var docs := documents;
      var totalWordCount := 0;
      for k := 0 to |userNotebooks|
        invariant totalWordCount == TotalWords(userNotebooks[..k], docs)
      {
        var nb := userNotebooks[k];
        var notebookWordCount := Sum(Keep(docs, (d: DocumentRow) => d.notebookId == nb.id),
                                     (d: DocumentRow) => d.wordCount);
        totalWordCount := totalWordCount + notebookWordCount;
        assert userNotebooks[..k + 1] == userNotebooks[..k] + [nb];
        TotalWordsAppend(userNotebooks[..k], nb, docs);
      }
      assert userNotebooks[..|userNotebooks|] == userNotebooks;
      var writingStats := UserStats(stats, userId);
      var totalTime := Sum(writingStats, (s: StatRow) => s.timeSpent);
      var weekStart := today - 7;
      var weeklyWords := Sum(Keep(writingStats, (s: StatRow) => s.date >= weekStart), (s: StatRow) => s.wordsWritten);
      result := WritingStatistics(Count(projects, (p: ProjectRow) => p.userId == userId), totalWordCount,
                                  RoundDiv(totalTime, 60), weeklyWords);
    }

    /** `recordWritingSession` on day `today`; `freshId` is the id a new row would get. The
        row for the day is updated, or a row is inserted; the insert fails when `projectId`
        names no project, since the statistics row refers to it. */
    method RecordWritingSession(userId: string, projectId: string, wordsWritten: int, timeSpent: int,
                                today: int, freshId: string) returns (r: Result<StatRow, string>)
      modifies this
      ensures r.Err? <==> FindStat(old(stats), userId, projectId, today).None? && !ProjectExists(projects, projectId)
      ensures r.Err? ==> r.error == ForeignKeyViolation && stats == old(stats)
      ensures r.Ok? ==> stats == Upsert(old(stats), freshId, userId, projectId, today, wordsWritten, timeSpent)
      ensures r.Ok? ==> r.value in stats && SameDay(r.value, userId, projectId, today)
      ensures projects == old(projects) && notebooks == old(notebooks) && documents == old(documents)
      ensures characters == old(characters) && suggestions == old(suggestions)
      ensures postedProjects == old(postedProjects)
    {
      var existing := FindStat(stats, userId, projectId, today);
      if existing.Some? {
        var updated := Accumulated(stats[existing.value], wordsWritten, timeSpent);
        stats := stats[existing.value := updated];
        assert stats[existing.value] == updated;
        return Ok(updated);
      }
      if !(exists p :: p in projects && p.id == projectId) {
        return Err(ForeignKeyViolation);
      }
      var inserted := StatRow(freshId, userId, Some(projectId), today, wordsWritten, timeSpent, 1);
      stats := stats + [inserted];
      return Ok(inserted);
    }
  }

  /** The documents of a notebook not yet emptied, added to those already gone. */
  lemma NotebookDocumentIds(oldDocs: seq<DocumentRow>, done: set<string>, notebookId: string)
    ensures DocumentsIn(oldDocs, done)
            + Ids(Keep(WithoutDocumentsOf(oldDocs, done), (d: DocumentRow) => d.notebookId == notebookId))
            == DocumentsIn(oldDocs, done + {notebookId})
  {
    var rest := WithoutDocumentsOf(oldDocs, done);
    var mine := Keep(rest, (d: DocumentRow) => d.notebookId == notebookId);
    forall id | id in DocumentsIn(oldDocs, done + {notebookId})
      ensures id in DocumentsIn(oldDocs, done) + Ids(mine)
    {
      var d :| d in oldDocs && d.notebookId in done + {notebookId} && d.id == id;
      if d.notebookId !in done {
        assert d in rest;
        assert d in mine;
      }
    }
  }

  function NotebookIdsOf(nbs: seq<NotebookRow>): set<string> {
    set nb | nb in nbs :: nb.id
  }

  lemma NotebookIdsOfPrefix(nbs: seq<NotebookRow>, k: nat)
    requires k < |nbs|
    ensures NotebookIdsOf(nbs[..k + 1]) == NotebookIdsOf(nbs[..k]) + {nbs[k].id}
  {
    assert nbs[..k + 1] == nbs[..k] + [nbs[k]];
  }

  lemma IdsOfPrefix(docs: seq<DocumentRow>, j: nat)
    requires j < |docs|
    ensures Ids(docs[..j + 1]) == Ids(docs[..j]) + {docs[j].id}
  {
    assert docs[..j + 1] == docs[..j] + [docs[j]];
  }
}
