// The T05 session-todos relationship analysis
// (src/claude-code-analyzer/tasks/T05_session_todos_relationship/relationship_analyzer.py):
// which todos files name a session and an agent, the maps from sessions to
// their todos and from agents to their sessions, and the figures the report
// draws from them: the count buckets, agent reuse, the agent pattern of a
// session and the most complex sessions.

module SessionTodos {
  import opened Text
  import opened Ordering

  // ---------------------------------------------------------------------
  // Todos file names.

  /** The length of the longest prefix of `s` made of `[a-f0-9-]`. */
  function HexDashRun(s: string): (n: nat)
    ensures n <= |s|
    ensures forall i :: 0 <= i < n ==> IsLowerHexOrDash(s[i])
    ensures n < |s| ==> !IsLowerHexOrDash(s[n])
  {
    if s == [] || !IsLowerHexOrDash(s[0]) then 0 else 1 + HexDashRun(s[1..])
  }

  /** What the todos pattern makes of a file name. */
  datatype TodosName = NoMatch | TodosName(sessionId: string, agentId: string)

  /** The name fits `([a-f0-9-]+)-agent-([a-f0-9-]+)\.json$` matched from its
      start, with these two groups; `$` also matches before a final newline. */
  predicate TodosNameFits(name: string, sessionId: string, agentId: string) {
    && sessionId != [] && AllChars(sessionId, IsLowerHexOrDash)
    && agentId != [] && AllChars(agentId, IsLowerHexOrDash)
    && var whole := sessionId + "-agent-" + agentId + ".json";
       (name == whole || name == whole + "\n")
  }

  /** The pattern matched against a name: the session group runs to two
      characters before the first character outside `[a-f0-9-]` (the `g` of
      `-agent-`), the agent group to just before `.json`. */
  function ParseTodosName(name: string): TodosName {
    var p := HexDashRun(name);
    if p < 3 || !StartsWith(name[p - 2..], "-agent-") then NoMatch
    else
      var rest := name[p + 5..];
      var q := HexDashRun(rest);
      var tail := rest[q..];
      if q > 0 && (tail == ".json" || tail == ".json\n") then TodosName(name[..p - 2], rest[..q])
      else NoMatch
  }

  /** The run of `[a-f0-9-]` stops at the first character outside the class. */
  lemma HexDashRunAt(s: string, n: nat)
    requires n < |s| && !IsLowerHexOrDash(s[n])
    requires forall i :: 0 <= i < n ==> IsLowerHexOrDash(s[i])
    ensures HexDashRun(s) == n
  {
  }

  /** A name the parser accepts fits the pattern with the groups it returns. */
  lemma ParseTodosNameSound(name: string)
    requires ParseTodosName(name).TodosName?
    ensures TodosNameFits(name, ParseTodosName(name).sessionId, ParseTodosName(name).agentId)
  {
    var p := HexDashRun(name);
    var rest := name[p + 5..];
    var q := HexDashRun(rest);
    var sid, aid, tail := name[..p - 2], rest[..q], rest[q..];
    assert AllChars(sid, IsLowerHexOrDash);
    assert AllChars(aid, IsLowerHexOrDash);
    assert name[p - 2..p + 5] == name[p - 2..][..7] == "-agent-";
    assert name == sid + name[p - 2..p + 5] + rest;
    assert name == sid + "-agent-" + aid + tail;
  }

  /** Where the groups of a fitting name lie. */
  lemma FitsLayout(name: string, sessionId: string, agentId: string)
    requires TodosNameFits(name, sessionId, agentId)
    ensures var n, m := |sessionId|, |agentId|;
      && |name| >= n + m + 12
      && name[..n] == sessionId
      && name[n..n + 7] == "-agent-"
      && name[n + 7..][..m] == agentId
      && (name[n + 7..][m..] == ".json" || name[n + 7..][m..] == ".json\n")
  {
    var whole := sessionId + "-agent-" + agentId + ".json";
    var n := |sessionId|;
    if name == whole {
      assert name[n + 7..] == agentId + ".json";
    } else {
      assert name[n + 7..] == agentId + ".json\n";
    }
  }

  /** In a fitting name every character before the `g` of `-agent-` is in
      `[a-f0-9-]`, and the `g` is not. */
  lemma SessionRunChars(name: string, sessionId: string, agentId: string)
    requires TodosNameFits(name, sessionId, agentId)
    ensures |sessionId| + 2 < |name| && !IsLowerHexOrDash(name[|sessionId| + 2])
    ensures forall i :: 0 <= i < |sessionId| + 2 ==> IsLowerHexOrDash(name[i])
    ensures |name| >= |sessionId| + 7 && StartsWith(name[|sessionId|..], "-agent-")
    ensures name[..|sessionId|] == sessionId
  {
    FitsLayout(name, sessionId, agentId);
    var n := |sessionId|;
    var marker := name[n..n + 7];
    assert marker == "-agent-";
    assert name[n..][..7] == marker;
    assert name[n + 2] == marker[2];
    forall i | 0 <= i < n + 2 ensures IsLowerHexOrDash(name[i]) {
      if i < n {
        assert name[i] == name[..n][i] == sessionId[i];
      } else {
        assert name[i] == marker[i - n];
      }
    }
  }

  /** In a fitting name the session run stops at the `g` of `-agent-`. */
  lemma SessionRunOfFit(name: string, sessionId: string, agentId: string)
    requires TodosNameFits(name, sessionId, agentId)
    ensures HexDashRun(name) == |sessionId| + 2
    ensures |name| >= |sessionId| + 7 && StartsWith(name[|sessionId|..], "-agent-")
    ensures name[..|sessionId|] == sessionId
  {
    SessionRunChars(name, sessionId, agentId);
    HexDashRunAt(name, |sessionId| + 2);
  }

  /** After `-agent-`, the agent run stops at the `.` of `.json`. */
  lemma AgentRunOfFit(name: string, sessionId: string, agentId: string)
    requires TodosNameFits(name, sessionId, agentId)
    ensures |name| >= |sessionId| + 7
    ensures var rest := name[|sessionId| + 7..];
      && HexDashRun(rest) == |agentId|
      && rest[..|agentId|] == agentId
      && (rest[|agentId|..] == ".json" || rest[|agentId|..] == ".json\n")
  {
    FitsLayout(name, sessionId, agentId);
    var m := |agentId|;
    var rest := name[|sessionId| + 7..];
    var tail := rest[m..];
    assert tail[0] == '.' by {
      if tail == ".json" {
        assert tail[0] == ".json"[0];
      } else {
        assert tail[0] == ".json\n"[0];
      }
    }
    forall i | 0 <= i < m ensures IsLowerHexOrDash(rest[i]) {
      assert rest[i] == rest[..m][i] == agentId[i];
    }
    HexDashRunAt(rest, m);
  }

  /** A name that fits the pattern is parsed into exactly those groups: the
      match, when there is one, is unique. */
  lemma ParseTodosNameComplete(name: string, sessionId: string, agentId: string)
    requires TodosNameFits(name, sessionId, agentId)
    ensures ParseTodosName(name) == TodosName(sessionId, agentId)
  {
    SessionRunOfFit(name, sessionId, agentId);
    AgentRunOfFit(name, sessionId, agentId);
  }

  /** `Path(path).name`: the last part of the path, empty and `.` parts skipped. */
  function FileName(path: string): string {
    LastPart(Split(path, '/'))
  }

  function LastPart(parts: seq<string>): string {
    if parts == [] then ""
    else if parts[|parts| - 1] != "" && parts[|parts| - 1] != "." then parts[|parts| - 1]
    else LastPart(parts[..|parts| - 1])
  }

  // ---------------------------------------------------------------------
  // The session and agent maps.

  /** One entry of the scan's `file_details`. */
  datatype FileDetail = FileDetail(fileType: string, sessionId: string, path: string, modified: string,
                                   size: int, project: string, records: int)

  /** What `session_todos_map` records for one todos file. */
  datatype TodoEntry = TodoEntry(filePath: string, agentId: string, modified: string, size: int)

  /** The two maps with the order in which their keys were first used. */
  datatype Links = Links(sessions: seq<string>, todos: map<string, seq<TodoEntry>>,
                         agents: seq<string>, agentSessions: map<string, set<string>>)

  const NoLinks := Links([], map[], [], map[])

  /** The session and agent a todos file names, if its file name fits the pattern. */
  function TodosFileName(f: FileDetail): TodosName {
    ParseTodosName(FileName(f.path))
  }

  /** One todos file with what the pattern made of its name: a matching one
      appends an entry to its session's list and adds the session to its
      agent's set; any other leaves both alone. */
  function AddTodosFile(l: Links, f: FileDetail, name: TodosName): Links {
    match name
    case NoMatch => l
    case TodosName(sid, aid) =>
      var entry := TodoEntry(f.path, aid, f.modified, f.size);
      Links(if sid in l.todos then l.sessions else l.sessions + [sid],
            l.todos[sid := (if sid in l.todos then l.todos[sid] else []) + [entry]],
            if aid in l.agentSessions then l.agents else l.agents + [aid],
            l.agentSessions[aid := (if aid in l.agentSessions then l.agentSessions[aid] else {}) + {sid}])
  }

  /** The todos files in turn. */
  function AddTodosFiles(l: Links, files: seq<FileDetail>): Links {
    if files == [] then l
    else
      var f := files[|files| - 1];
      AddTodosFile(AddTodosFiles(l, files[..|files| - 1]), f, TodosFileName(f))
  }

  /** The key orders list each key once, every session has an entry, and a
      session is in an agent's set exactly when one of its entries names the agent. */
  ghost predicate LinksOk(l: Links) {
    KeysOk(l) && AgentsOk(l)
  }

  ghost predicate KeysOk(l: Links) {
    && Distinct(l.sessions) && (forall s :: s in l.sessions <==> s in l.todos)
    && Distinct(l.agents) && (forall a :: a in l.agents <==> a in l.agentSessions)
    && (forall s :: s in l.todos ==> l.todos[s] != [])
    && (forall a :: a in l.agentSessions ==> l.agentSessions[a] != {})
  }

  ghost predicate AgentsOk(l: Links) {
    forall a, s :: a in l.agentSessions && s in l.agentSessions[a] <==>
                   s in l.todos && exists e :: e in l.todos[s] && e.agentId == a
  }

  lemma NoLinksOk()
    ensures LinksOk(NoLinks)
  {
  }

  lemma AddTodosFileOk(l: Links, f: FileDetail, name: TodosName)
    requires LinksOk(l)
    ensures LinksOk(AddTodosFile(l, f, name))
  {
    AddTodosFileKeys(l, f, name);
    if name.TodosName? {
      AddTodosFileAgentsSound(l, f, name.sessionId, name.agentId);
      AddTodosFileAgentsComplete(l, f, name.sessionId, name.agentId);
    }
  }

  /** An agent's new set holds only sessions with an entry by that agent. */
  lemma AddTodosFileAgentsSound(l: Links, f: FileDetail, sid: string, aid: string)
    requires AgentsOk(l)
    ensures var r := AddTodosFile(l, f, TodosName(sid, aid));
      forall a, s :: a in r.agentSessions && s in r.agentSessions[a] ==>
        s in r.todos && exists e :: e in r.todos[s] && e.agentId == a
  {
    var r := AddTodosFile(l, f, TodosName(sid, aid));
    var entry := TodoEntry(f.path, aid, f.modified, f.size);
    assert r.todos[sid] == (if sid in l.todos then l.todos[sid] else []) + [entry];
    forall a, s | a in r.agentSessions && s in r.agentSessions[a]
      ensures s in r.todos && exists e :: e in r.todos[s] && e.agentId == a
    {
      if a == aid && s == sid {
        assert entry in r.todos[s];
      } else {
        assert a in l.agentSessions && s in l.agentSessions[a];
        var e :| e in l.todos[s] && e.agentId == a;
        assert e in r.todos[s];
      }
    }
  }

  /** A session with an entry by an agent is in that agent's new set. */
  lemma AddTodosFileAgentsComplete(l: Links, f: FileDetail, sid: string, aid: string)
    requires AgentsOk(l)
    ensures var r := AddTodosFile(l, f, TodosName(sid, aid));
      forall a, s :: s in r.todos && (exists e :: e in r.todos[s] && e.agentId == a) ==>
        a in r.agentSessions && s in r.agentSessions[a]
  {
    var r := AddTodosFile(l, f, TodosName(sid, aid));
    var entry := TodoEntry(f.path, aid, f.modified, f.size);
    assert r.todos[sid] == (if sid in l.todos then l.todos[sid] else []) + [entry];
    forall a, s | s in r.todos && (exists e :: e in r.todos[s] && e.agentId == a)
      ensures a in r.agentSessions && s in r.agentSessions[a]
    {
      var e :| e in r.todos[s] && e.agentId == a;
      if !(s == sid && e == entry) {
        assert e in l.todos[s];
        assert a in l.agentSessions && s in l.agentSessions[a];
      }
    }
  }

  lemma AddTodosFileKeys(l: Links, f: FileDetail, name: TodosName)
    requires KeysOk(l)
    ensures KeysOk(AddTodosFile(l, f, name))
  {
    match name
    case NoMatch =>
    case TodosName(sid, aid) =>
      if sid !in l.todos {
        DistinctSnoc(l.sessions, sid);
      }
      if aid !in l.agentSessions {
        DistinctSnoc(l.agents, aid);
      }
  }

  lemma {:induction false} AddTodosFilesKeys(l: Links, files: seq<FileDetail>)
    requires KeysOk(l)
    ensures KeysOk(AddTodosFiles(l, files))
  {
    if files != [] {
      AddTodosFilesKeys(l, files[..|files| - 1]);
      var f := files[|files| - 1];
      AddTodosFileKeys(AddTodosFiles(l, files[..|files| - 1]), f, TodosFileName(f));
    }
  }

  lemma {:induction false} AddTodosFilesOk(l: Links, files: seq<FileDetail>)
    requires LinksOk(l)
    ensures LinksOk(AddTodosFiles(l, files))
  {
    if files != [] {
      AddTodosFilesOk(l, files[..|files| - 1]);
      var f := files[|files| - 1];
      AddTodosFileOk(AddTodosFiles(l, files[..|files| - 1]), f, TodosFileName(f));
    }
  }

  /** The number of files whose name fits the todos pattern. */
  function MatchCount(files: seq<FileDetail>): (n: nat)
    ensures n <= |files|
  {
    if files == [] then 0
    else MatchCount(files[..|files| - 1]) + (if TodosFileName(files[|files| - 1]).TodosName? then 1 else 0)
  }

  /** The entries of the sessions in `order`, all lists together. */
  function EntryCount(order: seq<string>, todos: map<string, seq<TodoEntry>>): nat {
    if order == [] then 0
    else
      var s := order[|order| - 1];
      EntryCount(order[..|order| - 1], todos) + (if s in todos then |todos[s]| else 0)
  }

  lemma {:induction false} EntryCountOther(order: seq<string>, todos: map<string, seq<TodoEntry>>, x: string, v: seq<TodoEntry>)
    requires x !in order
    ensures EntryCount(order, todos[x := v]) == EntryCount(order, todos)
  {
    if order != [] {
      EntryCountOther(order[..|order| - 1], todos, x, v);
    }
  }

  lemma {:induction false} EntryCountGrow(order: seq<string>, todos: map<string, seq<TodoEntry>>, x: string, e: TodoEntry)
    requires Distinct(order) && x in order && x in todos
    ensures EntryCount(order, todos[x := todos[x] + [e]]) == EntryCount(order, todos) + 1
  {
    var init, last := order[..|order| - 1], order[|order| - 1];
    PrefixSnoc(order, |order| - 1);
    if last == x {
      assert x !in init;
      EntryCountOther(init, todos, x, todos[x] + [e]);
    } else {
      EntryCountGrow(init, todos, x, e);
    }
  }

  /** A matching file adds one entry, any other none. */
  lemma AddTodosFileCount(l: Links, f: FileDetail, name: TodosName)
    requires KeysOk(l)
    ensures var r := AddTodosFile(l, f, name);
      EntryCount(r.sessions, r.todos) == EntryCount(l.sessions, l.todos) + (if name.TodosName? then 1 else 0)
  {
    if name.TodosName? {
      var sid, aid := name.sessionId, name.agentId;
      var r := AddTodosFile(l, f, name);
      var entry := TodoEntry(f.path, aid, f.modified, f.size);
      if sid in l.todos {
        assert r.sessions == l.sessions && r.todos == l.todos[sid := l.todos[sid] + [entry]];
        EntryCountGrow(l.sessions, l.todos, sid, entry);
      } else {
        assert [] + [entry] == [entry];
        assert r.sessions == l.sessions + [sid] && r.todos == l.todos[sid := [entry]];
        EntryCountOther(l.sessions, l.todos, sid, [entry]);
        EntryCountSnoc(l.sessions, r.todos, sid);
      }
    }
  }

  lemma EntryCountSnoc(order: seq<string>, todos: map<string, seq<TodoEntry>>, x: string)
    ensures EntryCount(order + [x], todos) == EntryCount(order, todos) + (if x in todos then |todos[x]| else 0)
  {
    assert (order + [x])[..|order|] == order;
  }

  /** Each matching file adds exactly one entry: the entries of all sessions
      together number the matching files. */
  lemma {:induction false} EntriesMatchFiles(l: Links, files: seq<FileDetail>)
    requires KeysOk(l)
    ensures var r := AddTodosFiles(l, files);
      EntryCount(r.sessions, r.todos) == EntryCount(l.sessions, l.todos) + MatchCount(files)
  {
    if files != [] {
      var init := files[..|files| - 1];
      EntriesMatchFiles(l, init);
      AddTodosFilesKeys(l, init);
      var f := files[|files| - 1];
      AddTodosFileCount(AddTodosFiles(l, init), f, TodosFileName(f));
    }
  }

  /** One file adds its session to its agent's set and nothing else. */
  lemma AddTodosFileAgents(l: Links, f: FileDetail, name: TodosName, a: string, s: string)
    ensures var r := AddTodosFile(l, f, name);
      (a in r.agentSessions && s in r.agentSessions[a]) <==>
        (a in l.agentSessions && s in l.agentSessions[a]) || name == TodosName(s, a)
  {
  }

  /** What the pattern makes of each file name, in file order. */
  function Names(files: seq<FileDetail>): (r: seq<TodosName>)
    ensures |r| == |files|
  {
    if files == [] then [] else Names(files[..|files| - 1]) + [TodosFileName(files[|files| - 1])]
  }

  lemma {:induction false} NamesAt(files: seq<FileDetail>, i: nat)
    requires i < |files|
    ensures Names(files)[i] == TodosFileName(files[i])
  {
    var init := files[..|files| - 1];
    var before := Names(init);
    assert Names(files) == before + [TodosFileName(files[|files| - 1])];
    if i < |init| {
      NamesAt(init, i);
      assert init[i] == files[i] && Names(files)[i] == before[i];
    }
  }

  /** From empty maps, an agent's set holds exactly the sessions that a
      matching file names together with that agent. */
  lemma {:induction false} AgentSessionsNamed(files: seq<FileDetail>, a: string, s: string)
    ensures var r := AddTodosFiles(NoLinks, files);
      a in r.agentSessions && s in r.agentSessions[a] <==> TodosName(s, a) in Names(files)
  {
    if files != [] {
      var init := files[..|files| - 1];
      var f := files[|files| - 1];
      AgentSessionsNamed(init, a, s);
      AddTodosFileAgents(AddTodosFiles(NoLinks, init), f, TodosFileName(f), a, s);
    }
  }

  // ---------------------------------------------------------------------
  // How many todos files the sessions have.

  /** `sessions_with_no_todos`: the indexed session files less the sessions
      with todos, whether or not those sessions have a session file. */
  function SessionsWithNoTodos(sessionFiles: map<string, FileDetail>, l: Links): int {
    |sessionFiles| - |l.todos|
  }

  /** When every session with todos has a session file, the figure counts the
      session files without todos. */
  lemma SessionsWithNoTodosCounts(sessionFiles: map<string, FileDetail>, l: Links)
    requires l.todos.Keys <= sessionFiles.Keys
    ensures SessionsWithNoTodos(sessionFiles, l) == |sessionFiles.Keys - l.todos.Keys|
  {
    var k, t := sessionFiles.Keys, l.todos.Keys;
    assert k == (k - t) + t;
    assert |k| == |k - t| + |t|;
  }

  /** A file name is its own `Path.name` when it holds no `/` and is not empty or `.`. */
  lemma {:induction false} PlainFileName(name: string)
    requires '/' !in name && name != "" && name != "."
    ensures FileName(name) == name
  {
    SplitWithout(name, '/');
  }

  lemma {:induction false} SplitWithout(s: string, c: char)
    requires c !in s
    ensures Split(s, c) == [s]
  {
    if s != [] {
      SplitWithout(s[1..], c);
      assert [s[0]] + s[1..] == s;
    }
  }

  /** A todos file whose session has no session file makes the figure negative. */
  lemma SessionsWithNoTodosNegative(f: FileDetail, sessionId: string, agentId: string)
    requires sessionId != [] && AllChars(sessionId, IsLowerHexOrDash)
    requires agentId != [] && AllChars(agentId, IsLowerHexOrDash)
    requires f.path == sessionId + "-agent-" + agentId + ".json"
    ensures SessionsWithNoTodos(map[], AddTodosFiles(NoLinks, [f])) == -1
  {
    assert '/' !in sessionId && '/' !in agentId;
    assert '/' !in "-agent-" && '/' !in ".json";
    PlainFileName(f.path);
    ParseTodosNameComplete(f.path, sessionId, agentId);
    assert [f][..0] == [];
    assert TodosFileName(f) == TodosName(sessionId, agentId);
    assert AddTodosFiles(NoLinks, [f]) == AddTodosFile(NoLinks, f, TodosName(sessionId, agentId));
    var l := AddTodosFile(NoLinks, f, TodosName(sessionId, agentId));
    assert l.todos.Keys == {sessionId};
  }

  /** The number of todos of each session, in the order the sessions were first seen. */
  function TodoCounts(sessions: seq<string>, todos: map<string, seq<TodoEntry>>): (r: seq<nat>)
    ensures |r| == |sessions|
  {
    if sessions == [] then []
    else
      var s := sessions[|sessions| - 1];
      TodoCounts(sessions[..|sessions| - 1], todos) + [if s in todos then |todos[s]| else 0]
  }

  /** The relationship type of a session with `n` todos files. */
  function Bucket(n: nat): string {
    if n == 1 then "1:1"
    else if n <= 5 then "1:2-5"
    else if n <= 10 then "1:6-10"
    else "1:10+"
  }

  /** The four types split the positive counts into consecutive ranges; a
      count of 0, which no session has, would fall in the second. */
  lemma BucketRanges(n: nat)
    ensures Bucket(n) == "1:1" <==> n == 1
    ensures Bucket(n) == "1:2-5" <==> n == 0 || 2 <= n <= 5
    ensures Bucket(n) == "1:6-10" <==> 6 <= n <= 10
    ensures Bucket(n) == "1:10+" <==> 10 < n
  {
  }

  function Buckets(counts: seq<nat>): (r: seq<string>)
    ensures |r| == |counts| && forall i :: 0 <= i < |r| ==> r[i] == Bucket(counts[i])
  {
    if counts == [] then [] else Buckets(counts[..|counts| - 1]) + [Bucket(counts[|counts| - 1])]
  }

  /** The largest count, 0 when there is none. */
  function MaxCount(counts: seq<nat>): (m: nat)
    ensures forall i :: 0 <= i < |counts| ==> counts[i] <= m
    ensures counts == [] ==> m == 0
    ensures counts != [] ==> m in counts
  {
    if counts == [] then 0
    else
      var init := counts[..|counts| - 1];
      var m := MaxCount(init);
      assert forall i :: 0 <= i < |init| ==> counts[i] == init[i];
      if counts[|counts| - 1] > m then counts[|counts| - 1] else m
  }

  /** `_analyze_relationship_distribution` without the average, which is a float. */
  datatype Distribution = Distribution(sessionsWithNoTodos: int, maxTodosInSingleSession: nat,
                                       relationshipTypes: map<string, nat>)

  function DistributionOf(sessionFiles: map<string, FileDetail>, l: Links): Distribution {
    var counts := TodoCounts(l.sessions, l.todos);
    Distribution(SessionsWithNoTodos(sessionFiles, l), MaxCount(counts), Tally(Buckets(counts)))
  }

  /** Each relationship type is reported with the number of sessions whose
      todo count falls in its range, and only types some session has. */
  lemma DistributionTypes(sessionFiles: map<string, FileDetail>, l: Links, b: string)
    ensures var d, counts := DistributionOf(sessionFiles, l), TodoCounts(l.sessions, l.todos);
      && (b in d.relationshipTypes <==> exists i :: 0 <= i < |counts| && Bucket(counts[i]) == b)
      && (b in d.relationshipTypes ==> d.relationshipTypes[b] == Occurrences(Buckets(counts), b))
  {
    var counts := TodoCounts(l.sessions, l.todos);
    var labels := Buckets(counts);
    TallyCounts(labels);
    if b in labels {
      var i :| 0 <= i < |labels| && labels[i] == b;
    }
  }

  // ---------------------------------------------------------------------
  // Agents shared between sessions.

  /** The number of sessions of each agent, in the order the agents were first seen. */
  function SessionCounts(agents: seq<string>, agentSessions: map<string, set<string>>): (r: seq<nat>)
    ensures |r| == |agents|
  {
    if agents == [] then []
    else
      var a := agents[|agents| - 1];
      SessionCounts(agents[..|agents| - 1], agentSessions) + [if a in agentSessions then |agentSessions[a]| else 0]
  }

  /** How many counts exceed `k`. */
  function CountAbove(counts: seq<nat>, k: nat): (n: nat)
    ensures n <= |counts|
  {
    if counts == [] then 0
    else CountAbove(counts[..|counts| - 1], k) + (if counts[|counts| - 1] > k then 1 else 0)
  }

  /** `_analyze_agent_reuse`. */
  datatype AgentReuse = AgentReuse(uniqueAgents: nat, reusedAgents: nat, maxSessionsPerAgent: nat,
                                   agentDistribution: map<nat, nat>)

  function AgentReuseOf(l: Links): AgentReuse {
    var counts := SessionCounts(l.agents, l.agentSessions);
    AgentReuse(|l.agentSessions|, CountAbove(counts, 1), MaxCount(counts), Tally(counts))
  }

  /** The agents of `agents` linked to more than one session. */
  ghost function Reused(agents: seq<string>, agentSessions: map<string, set<string>>): set<string> {
    set a | a in agents && a in agentSessions && |agentSessions[a]| > 1
  }

  lemma {:induction false} CountAboveReused(agents: seq<string>, agentSessions: map<string, set<string>>)
    requires Distinct(agents)
    ensures CountAbove(SessionCounts(agents, agentSessions), 1) == |Reused(agents, agentSessions)|
  {
    if agents != [] {
      var init, a := agents[..|agents| - 1], agents[|agents| - 1];
      PrefixSnoc(agents, |agents| - 1);
      CountAboveReused(init, agentSessions);
      var counts := SessionCounts(agents, agentSessions);
      assert counts[..|counts| - 1] == SessionCounts(init, agentSessions);
      assert a !in init;
      if a in agentSessions && |agentSessions[a]| > 1 {
        assert Reused(agents, agentSessions) == Reused(init, agentSessions) + {a};
      } else {
        assert Reused(agents, agentSessions) == Reused(init, agentSessions);
      }
    }
  }

  /** `reused_agents` is the number of agents linked to more than one
      session, and so at most the number of agents. */
  lemma ReusedAgentsCount(l: Links)
    requires KeysOk(l)
    ensures var r := AgentReuseOf(l);
      && r.reusedAgents == |set a | a in l.agentSessions && |l.agentSessions[a]| > 1|
      && r.reusedAgents <= r.uniqueAgents
  {
    CountAboveReused(l.agents, l.agentSessions);
    var r := Reused(l.agents, l.agentSessions);
    assert r == set a | a in l.agentSessions && |l.agentSessions[a]| > 1;
    assert r <= l.agentSessions.Keys;
    SubsetCardinality(r, l.agentSessions.Keys);
    assert |l.agentSessions.Keys| == |l.agentSessions|;
  }

  /** `max_sessions_per_agent` is the size of the largest session set, and
      some agent is reused exactly when it exceeds 1. */
  lemma MaxSessionsPerAgent(l: Links)
    requires KeysOk(l)
    ensures var r := AgentReuseOf(l);
      && (forall a :: a in l.agentSessions ==> |l.agentSessions[a]| <= r.maxSessionsPerAgent)
      && (l.agentSessions != map[] ==>
            exists a :: a in l.agentSessions && |l.agentSessions[a]| == r.maxSessionsPerAgent)
      && (r.reusedAgents > 0 <==> r.maxSessionsPerAgent > 1)
  {
    var counts := SessionCounts(l.agents, l.agentSessions);
    var m := MaxCount(counts);
    SessionCountsAt(l.agents, l.agentSessions);
    CountAboveMax(counts, 1);
    forall a | a in l.agentSessions ensures |l.agentSessions[a]| <= m {
      var i :| 0 <= i < |l.agents| && l.agents[i] == a;
    }
    if l.agentSessions != map[] {
      var a :| a in l.agentSessions;
      assert a in l.agents;
      var i :| 0 <= i < |counts| && counts[i] == m;
      assert l.agents[i] in l.agentSessions && |l.agentSessions[l.agents[i]]| == m;
    }
  }

  /** Some count exceeds `k` exactly when the largest does. */
  lemma {:induction false} CountAboveMax(counts: seq<nat>, k: nat)
    ensures CountAbove(counts, k) > 0 <==> MaxCount(counts) > k
  {
    if counts != [] {
      CountAboveMax(counts[..|counts| - 1], k);
    }
  }

  lemma {:induction false} SessionCountsAt(agents: seq<string>, agentSessions: map<string, set<string>>)
    ensures forall i :: 0 <= i < |agents| ==>
      SessionCounts(agents, agentSessions)[i] == if agents[i] in agentSessions then |agentSessions[agents[i]]| else 0
  {
    if agents != [] {
      SessionCountsAt(agents[..|agents| - 1], agentSessions);
    }
  }

  // ---------------------------------------------------------------------
  // The sessions in detail.

  /** `_analyze_agent_pattern`. */
  function AgentPattern(agentIds: seq<string>): string {
    var distinct := set a | a in agentIds;
    if |distinct| == 1 then "single_agent"
    else if |agentIds| == |distinct| then "unique_agents"
    else "mixed_agents"
  }

  /** A sequence with a repeat has fewer distinct elements than positions. */
  lemma RepeatCardinality<T>(s: seq<T>, i: nat, j: nat)
    requires i < j < |s| && s[i] == s[j]
    ensures |set x | x in s| < |s|
  {
    var t := s[..j] + s[j + 1..];
    assert (set x | x in s) == (set x | x in t) by {
      forall x | x in s ensures x in t {
        var k :| 0 <= k < |s| && s[k] == x;
        if k < j { assert t[k] == x; } else if k > j { assert t[k - 1] == x; } else { assert t[i] == x; }
      }
      forall x | x in t ensures x in s {
        var k :| 0 <= k < |t| && t[k] == x;
        if k < j { assert s[k] == x; } else { assert s[k + 1] == x; }
      }
    }
    SeqSetCardinality(t);
  }

  /** One agent id, possibly repeated, is "single_agent"; ids all different
      (none at all included) are "unique_agents"; anything else, a repeat
      among at least two different ids, is "mixed_agents". */
  lemma AgentPatternCases(agentIds: seq<string>)
    ensures AgentPattern(agentIds) == "single_agent" <==>
              agentIds != [] && forall i :: 0 <= i < |agentIds| ==> agentIds[i] == agentIds[0]
    ensures AgentPattern(agentIds) == "unique_agents" <==> Distinct(agentIds) && |agentIds| != 1
    ensures AgentPattern(agentIds) == "mixed_agents" <==>
              !Distinct(agentIds) && exists i :: 0 <= i < |agentIds| && agentIds[i] != agentIds[0]
  {
    var distinct := set a | a in agentIds;
    if Distinct(agentIds) {
      DistinctCardinality(agentIds);
    } else {
      var i, j :| 0 <= i < j < |agentIds| && agentIds[i] == agentIds[j];
      RepeatCardinality(agentIds, i, j);
    }
    if agentIds != [] {
      if forall i :: 0 <= i < |agentIds| ==> agentIds[i] == agentIds[0] {
        assert distinct == {agentIds[0]};
      } else {
        var i :| 0 <= i < |agentIds| && agentIds[i] != agentIds[0];
        assert {agentIds[0], agentIds[i]} <= distinct;
        SubsetCardinality({agentIds[0], agentIds[i]}, distinct);
      }
    }
    if |distinct| == 1 {
      var a :| a in distinct;
      OneElement(distinct, a, agentIds[0]);
      forall i | 0 <= i < |agentIds| ensures agentIds[i] == agentIds[0] {
        OneElement(distinct, agentIds[i], agentIds[0]);
      }
    }
  }

  function AgentIds(entries: seq<TodoEntry>): (r: seq<string>)
    ensures |r| == |entries| && forall i :: 0 <= i < |r| ==> r[i] == entries[i].agentId
  {
    if entries == [] then [] else AgentIds(entries[..|entries| - 1]) + [entries[|entries| - 1].agentId]
  }

  /** One session of the report; the time span is left out. */
  datatype SessionDetail = SessionDetail(sessionId: string, project: string, todosCount: nat, uniqueAgents: nat,
                                         hasSelfAgent: bool, sessionRecords: int, agentPattern: string)

  function Detail(sessionId: string, info: FileDetail, entries: seq<TodoEntry>): SessionDetail {
    var ids := AgentIds(entries);
    SessionDetail(sessionId, info.project, |entries|, |set a | a in ids|, sessionId in ids, info.records,
                  AgentPattern(ids))
  }

  /** The details of the sessions in `sessions`, in that order, that have a
      session file and more than `above` todos files. */
  function DetailsOf(sessions: seq<string>, todos: map<string, seq<TodoEntry>>,
                     sessionFiles: map<string, FileDetail>, above: nat): (r: seq<SessionDetail>)
    ensures forall i :: 0 <= i < |r| ==>
              r[i].sessionId in sessions && r[i].sessionId in todos && r[i].sessionId in sessionFiles
              && r[i] == Detail(r[i].sessionId, sessionFiles[r[i].sessionId], todos[r[i].sessionId])
              && r[i].todosCount > above
  {
    if sessions == [] then []
    else
      var s := sessions[|sessions| - 1];
      var init := DetailsOf(sessions[..|sessions| - 1], todos, sessionFiles, above);
      if s in todos && |todos[s]| > above && s in sessionFiles
      then init + [Detail(s, sessionFiles[s], todos[s])]
      else init
  }

  /** Every session with a session file and more than `above` todos files has its detail. */
  lemma {:induction false} DetailsOfComplete(sessions: seq<string>, todos: map<string, seq<TodoEntry>>,
                                             sessionFiles: map<string, FileDetail>, above: nat, s: string)
    requires s in sessions && s in todos && |todos[s]| > above && s in sessionFiles
    ensures Detail(s, sessionFiles[s], todos[s]) in DetailsOf(sessions, todos, sessionFiles, above)
  {
    var init := sessions[..|sessions| - 1];
    if s != sessions[|sessions| - 1] {
      PrefixSnoc(sessions, |sessions| - 1);
      DetailsOfComplete(init, todos, sessionFiles, above, s);
    }
  }

  /** Two details in order in `DetailsOf` belong to sessions in the same order. */
  lemma {:induction false} DetailsOfOrder(sessions: seq<string>, todos: map<string, seq<TodoEntry>>,
                                          sessionFiles: map<string, FileDetail>, above: nat, a: nat, b: nat)
    requires a < b < |DetailsOf(sessions, todos, sessionFiles, above)|
    ensures var d := DetailsOf(sessions, todos, sessionFiles, above);
            exists p, q :: 0 <= p < q < |sessions| && sessions[p] == d[a].sessionId && sessions[q] == d[b].sessionId
  {
    var n := |sessions| - 1;
    var init := sessions[..n];
    var d, before := DetailsOf(sessions, todos, sessionFiles, above), DetailsOf(init, todos, sessionFiles, above);
    assert d[a] == before[a];
    if b < |before| {
      assert d[b] == before[b];
      DetailsOfOrder(init, todos, sessionFiles, above, a, b);
      var p, q :| 0 <= p < q < |init| && init[p] == before[a].sessionId && init[q] == before[b].sessionId;
      assert sessions[p] == init[p] && sessions[q] == init[q];
    } else {
      assert d[b].sessionId == sessions[n];
      var p :| 0 <= p < |init| && init[p] == before[a].sessionId;
      assert sessions[p] == init[p];
    }
  }

  function ByTodosDescending(a: SessionDetail, b: SessionDetail): bool {
    a.todosCount >= b.todosCount
  }

  lemma ByTodosDescendingIsPreorder()
    ensures IsTotalPreorder(ByTodosDescending)
  {
  }

  /** `session_details`: every session with todos and a session file, by
      descending todo count. */
  function SessionDetails(l: Links, sessionFiles: map<string, FileDetail>): seq<SessionDetail> {
    ByTodosDescendingIsPreorder();
    SortBy(DetailsOf(l.sessions, l.todos, sessionFiles, 0), ByTodosDescending)
  }

  /** `_find_complex_relationships`: the sessions with a session file and
      more than one todos file, by descending todo count, the first ten. */
  function ComplexRelationships(l: Links, sessionFiles: map<string, FileDetail>): (r: seq<SessionDetail>)
    ensures |r| <= 10
  {
    ByTodosDescendingIsPreorder();
    var sorted := SortBy(DetailsOf(l.sessions, l.todos, sessionFiles, 1), ByTodosDescending);
    sorted[..Min(10, |sorted|)]
  }

  /** `session_details` lists sessions with equal todo counts in first-seen order. */
  lemma SessionDetailsTies(l: Links, sessionFiles: map<string, FileDetail>, i: nat, j: nat)
    requires var r := SessionDetails(l, sessionFiles); i < j < |r| && r[i].todosCount == r[j].todosCount
    ensures var r := SessionDetails(l, sessionFiles);
            exists p, q :: 0 <= p < q < |l.sessions| && l.sessions[p] == r[i].sessionId && l.sessions[q] == r[j].sessionId
  {
    ByTodosDescendingIsPreorder();
    var candidates := DetailsOf(l.sessions, l.todos, sessionFiles, 0);
    var r := SortBy(candidates, ByTodosDescending);
    assert r == SessionDetails(l, sessionFiles);
    assert ByTodosDescending(r[i], r[j]) && ByTodosDescending(r[j], r[i]);
    SortByStable(candidates, ByTodosDescending, i, j);
    var a, b :| 0 <= a < b < |candidates| && candidates[a] == r[i] && candidates[b] == r[j];
    DetailsOfOrder(l.sessions, l.todos, sessionFiles, 0, a, b);
  }

  /** `_find_complex_relationships` lists sessions with equal todo counts in first-seen order. */
  lemma ComplexRelationshipsTies(l: Links, sessionFiles: map<string, FileDetail>, i: nat, j: nat)
    requires var r := ComplexRelationships(l, sessionFiles); i < j < |r| && r[i].todosCount == r[j].todosCount
    ensures var r := ComplexRelationships(l, sessionFiles);
            exists p, q :: 0 <= p < q < |l.sessions| && l.sessions[p] == r[i].sessionId && l.sessions[q] == r[j].sessionId
  {
    ByTodosDescendingIsPreorder();
    var candidates := DetailsOf(l.sessions, l.todos, sessionFiles, 1);
    var sorted := SortBy(candidates, ByTodosDescending);
    var r := ComplexRelationships(l, sessionFiles);
    assert r[i] == sorted[i] && r[j] == sorted[j] && j < |candidates|;
    assert ByTodosDescending(sorted[i], sorted[j]) && ByTodosDescending(sorted[j], sorted[i]);
    SortByStable(candidates, ByTodosDescending, i, j);
    var a, b :| 0 <= a < b < |candidates| && candidates[a] == sorted[i] && candidates[b] == sorted[j];
    DetailsOfOrder(l.sessions, l.todos, sessionFiles, 1, a, b);
  }

  /** At most ten sessions, each with a session file and more than one todos
      file, by descending todo count; a session that qualifies but is left
      out has no more todos than any reported one. */
  lemma ComplexRelationshipsTop(l: Links, sessionFiles: map<string, FileDetail>, s: string)
    requires s in l.sessions && s in l.todos && |l.todos[s]| > 1 && s in sessionFiles
    ensures var r := ComplexRelationships(l, sessionFiles);
      && SortedBy(r, ByTodosDescending)
      && (forall i :: 0 <= i < |r| ==> r[i].sessionId in sessionFiles && r[i].todosCount > 1)
      && (Detail(s, sessionFiles[s], l.todos[s]) in r ||
            (|r| == 10 && forall i :: 0 <= i < |r| ==> r[i].todosCount >= |l.todos[s]|))
  {
    ByTodosDescendingIsPreorder();
    var candidates := DetailsOf(l.sessions, l.todos, sessionFiles, 1);
    var sorted := SortBy(candidates, ByTodosDescending);
    assert ComplexRelationships(l, sessionFiles) == sorted[..Min(10, |sorted|)];
    DetailsOfComplete(l.sessions, l.todos, sessionFiles, 1, s);
    TopOfSorted(candidates, sorted, sessionFiles, Detail(s, sessionFiles[s], l.todos[s]));
  }

  /** The first ten of a sorted arrangement of qualifying details qualify,
      and hold `d` unless ten others rank at least as high. */
  lemma TopOfSorted(candidates: seq<SessionDetail>, sorted: seq<SessionDetail>,
                    sessionFiles: map<string, FileDetail>, d: SessionDetail)
    requires multiset(sorted) == multiset(candidates) && SortedBy(sorted, ByTodosDescending)
    requires forall i :: 0 <= i < |candidates| ==>
               candidates[i].sessionId in sessionFiles && candidates[i].todosCount > 1
    requires d in candidates
    ensures var r := sorted[..Min(10, |sorted|)];
      && SortedBy(r, ByTodosDescending)
      && (forall i :: 0 <= i < |r| ==> r[i].sessionId in sessionFiles && r[i].todosCount > 1)
      && (d in r || (|r| == 10 && forall i :: 0 <= i < |r| ==> r[i].todosCount >= d.todosCount))
  {
    var r := sorted[..Min(10, |sorted|)];
    forall i | 0 <= i < |r| ensures r[i].sessionId in sessionFiles && r[i].todosCount > 1 {
      assert r[i] in multiset(candidates);
    }
    assert d in multiset(sorted);
    TopPrefix(sorted, 10, d, ByTodosDescending);
  }

  // ---------------------------------------------------------------------
  // The whole analysis.

  /** The files of one type, in their order. */
  function OfType(files: seq<FileDetail>, fileType: string): (r: seq<FileDetail>)
    ensures |r| <= |files|
    ensures forall f :: f in r <==> f in files && f.fileType == fileType
  {
    if files == [] then []
    else
      var f := files[|files| - 1];
      var init := OfType(files[..|files| - 1], fileType);
      assert forall g :: g in files <==> g in files[..|files| - 1] || g == f;
      if f.fileType == fileType then init + [f] else init
  }

  /** `OfType` keeps every file of the type as often as it occurs, and no other file. */
  lemma {:induction false} OfTypeCounts(files: seq<FileDetail>, fileType: string)
    ensures forall f :: multiset(OfType(files, fileType))[f] == if f.fileType == fileType then multiset(files)[f] else 0
  {
    if files != [] {
      var init := files[..|files| - 1];
      OfTypeCounts(init, fileType);
      assert files == init + [files[|files| - 1]];
    }
  }

  /** Two files in order in `OfType` stand in the same order in `files`. */
  lemma {:induction false} OfTypeOrder(files: seq<FileDetail>, fileType: string, a: nat, b: nat)
    requires a < b < |OfType(files, fileType)|
    ensures var r := OfType(files, fileType);
            exists p, q :: 0 <= p < q < |files| && files[p] == r[a] && files[q] == r[b]
  {
    var n := |files| - 1;
    var init := files[..n];
    var r, before := OfType(files, fileType), OfType(init, fileType);
    assert r[a] == before[a];
    if b < |before| {
      assert r[b] == before[b];
      OfTypeOrder(init, fileType, a, b);
      var p, q :| 0 <= p < q < |init| && init[p] == before[a] && init[q] == before[b];
      assert files[p] == init[p] && files[q] == init[q];
    } else {
      assert r[b] == files[n];
      assert before[a] in before;
      var p :| 0 <= p < |init| && init[p] == before[a];
      assert files[p] == init[p];
    }
  }

  /** The session files added to the index `m` by session id; a later file
      with the same id replaces an earlier one. */
  function SessionIndex(m: map<string, FileDetail>, files: seq<FileDetail>): (r: map<string, FileDetail>)
    ensures r.Keys == m.Keys + set f | f in files :: f.sessionId
    ensures forall s :: s in r ==> (r[s] in files && r[s].sessionId == s) || (s in m && r[s] == m[s])
  {
    if files == [] then m
    else
      var init := files[..|files| - 1];
      PrefixSnoc(files, |files| - 1);
      SessionIndex(m, init)[files[|files| - 1].sessionId := files[|files| - 1]]
  }

  /** The index keeps the last file of each session id. */
  lemma {:induction false} SessionIndexLast(m: map<string, FileDetail>, files: seq<FileDetail>, i: nat)
    requires i < |files|
    requires forall j :: i < j < |files| ==> files[j].sessionId != files[i].sessionId
    ensures SessionIndex(m, files)[files[i].sessionId] == files[i]
  {
    if i < |files| - 1 {
      SessionIndexLast(m, files[..|files| - 1], i);
    }
  }

  /** The agent ids of all entries, session by session. */
  function AllAgentIds(order: seq<string>, todos: map<string, seq<TodoEntry>>): (r: seq<string>)
    ensures |r| == EntryCount(order, todos)
    ensures forall s, e :: s in order && s in todos && e in todos[s] ==> e.agentId in r
  {
    if order == [] then []
    else
      var s := order[|order| - 1];
      var init := AllAgentIds(order[..|order| - 1], todos);
      PrefixSnoc(order, |order| - 1);
      if s in todos then
        var ids := AgentIds(todos[s]);
        assert forall e :: e in todos[s] ==> e.agentId in ids by {
          forall e | e in todos[s] ensures e.agentId in ids {
            var i :| 0 <= i < |todos[s]| && todos[s][i] == e;
            assert ids[i] == e.agentId;
          }
        }
        init + ids
      else init
  }

  /** Every agent is named by at least one entry. */
  lemma AgentsBelowEntries(l: Links)
    requires LinksOk(l)
    ensures |l.agentSessions| <= EntryCount(l.sessions, l.todos)
  {
    var ids := AllAgentIds(l.sessions, l.todos);
    assert l.agentSessions.Keys <= set a | a in ids by {
      forall a | a in l.agentSessions ensures a in ids {
        assert l.agentSessions[a] != {};
        var s :| s in l.agentSessions[a];
        var e :| e in l.todos[s] && e.agentId == a;
      }
    }
    SubsetCardinality(l.agentSessions.Keys, set a | a in ids);
    SeqSetCardinality(ids);
  }

  datatype Summary = Summary(totalSessions: nat, sessionsWithTodos: nat, totalTodosFiles: nat, uniqueAgents: nat)

  /** `_generate_relationship_analysis`, without the task labels and the time stamp. */
  datatype Relationships = Relationships(summary: Summary, relationshipDistribution: Distribution,
                                         agentReuseAnalysis: AgentReuse,
                                         complexRelationships: seq<SessionDetail>,
                                         sessionDetails: seq<SessionDetail>)

  function Report(sessionFiles: map<string, FileDetail>, todosFiles: seq<FileDetail>, l: Links): Relationships {
    Relationships(Summary(|sessionFiles|, |l.todos|, |todosFiles|, |l.agentSessions|),
                  DistributionOf(sessionFiles, l), AgentReuseOf(l),
                  ComplexRelationships(l, sessionFiles), SessionDetails(l, sessionFiles))
  }

  /** `analyze_relationship_patterns` on the file details of a scan: ".jsonl"
      files index the sessions, ".json" files are the todos files. */
  function Analyze(fileDetails: seq<FileDetail>): Relationships {
    var todosFiles := OfType(fileDetails, "json");
    Report(SessionIndex(map[], OfType(fileDetails, "jsonl")), todosFiles, AddTodosFiles(NoLinks, todosFiles))
  }

  lemma {:induction false} EntryCountCovers(order: seq<string>, todos: map<string, seq<TodoEntry>>)
    requires forall s :: s in order ==> s in todos && todos[s] != []
    ensures |order| <= EntryCount(order, todos)
  {
    if order != [] {
      PrefixSnoc(order, |order| - 1);
      EntryCountCovers(order[..|order| - 1], todos);
    }
  }

  /** Every session with todos has at least one matching todos file, and
      every agent at least one session. */
  lemma SummaryBounds(fileDetails: seq<FileDetail>)
    ensures var r := Analyze(fileDetails).summary;
      && r.sessionsWithTodos <= r.totalTodosFiles
      && r.uniqueAgents <= r.totalTodosFiles
  {
    var todosFiles := OfType(fileDetails, "json");
    var l := AddTodosFiles(NoLinks, todosFiles);
    NoLinksOk();
    AddTodosFilesOk(NoLinks, todosFiles);
    EntriesMatchFiles(NoLinks, todosFiles);
    EntryCountCovers(l.sessions, l.todos);
    DistinctCardinality(l.sessions);
    assert (set s | s in l.sessions) == l.todos.Keys;
    DistinctCardinality(l.agents);
    assert (set a | a in l.agents) == l.agentSessions.Keys;
    AgentsBelowEntries(l);
  }
}
