// The session-todos relationship analyzer as the object it is
// (src/claude-code-analyzer/tasks/T05_session_todos_relationship/relationship_analyzer.py):
// `SessionTodosRelationshipAnalyzer` fills its session index and its two
// default-dict maps file by file, then builds each part of the report with
// its own loop. Each method is proved against the functions of SessionTodos.

module SessionTodosObject {
  import opened Text
  import opened Ordering
  import opened SessionTodos

  class SessionTodosRelationshipAnalyzer {
    /** `session_todos_map`, with its keys in insertion order. */
    var sessionOrder: seq<string>
    var sessionTodosMap: map<string, seq<TodoEntry>>
    /** `agent_session_map`, with its keys in insertion order. */
    var agentOrder: seq<string>
    var agentSessionMap: map<string, set<string>>
    var sessionFiles: map<string, FileDetail>
    var todosFiles: seq<FileDetail>

    /** The two maps together. */
    function Linked(): Links
      reads this
    {
      Links(sessionOrder, sessionTodosMap, agentOrder, agentSessionMap)
    }

    ghost predicate Valid()
      reads this
    {
      LinksOk(Linked())
    }

    constructor ()
      ensures Linked() == NoLinks && sessionFiles == map[] && todosFiles == []
      ensures Valid()
    {
      sessionOrder, sessionTodosMap := [], map[];
      agentOrder, agentSessionMap := [], map[];
      sessionFiles, todosFiles := map[], [];
      NoLinksOk();
    }

    /** `analyze_relationship_patterns` on the file details of a scan: the
        ".jsonl" files join the session index, the ".json" files become the
        todos files, each matching one joins the maps, and the report follows. */
    method AnalyzeRelationshipPatterns(fileDetails: seq<FileDetail>) returns (analysis: Relationships)
      requires Valid()
      modifies this
      ensures Valid()
      ensures todosFiles == OfType(fileDetails, "json")
      ensures sessionFiles == SessionIndex(old(sessionFiles), OfType(fileDetails, "jsonl"))
      ensures Linked() == AddTodosFiles(old(Linked()), todosFiles)
      ensures analysis == Report(sessionFiles, todosFiles, Linked())
    {
      var sessionList := OfType(fileDetails, "jsonl");
      var todos := OfType(fileDetails, "json");
      todosFiles := todos;
      IndexSessionFiles(sessionList);
      LinkTodosFiles(todos);
      AddTodosFilesOk(old(Linked()), todosFiles);
      analysis := GenerateRelationshipAnalysis();
    }

    /** The session index loop: each session file under its session id. */
    method IndexSessionFiles(sessionList: seq<FileDetail>)
      modifies this
      ensures sessionFiles == SessionIndex(old(sessionFiles), sessionList)
      ensures Linked() == old(Linked()) && todosFiles == old(todosFiles)
    {
      for i := 0 to |sessionList|
        invariant sessionFiles == SessionIndex(old(sessionFiles), sessionList[..i])
        invariant Linked() == old(Linked()) && todosFiles == old(todosFiles)
      {
        assert sessionList[..i + 1][..i] == sessionList[..i];
        sessionFiles := sessionFiles[sessionList[i].sessionId := sessionList[i]];
      }
      assert sessionList[..|sessionList|] == sessionList;
    }

    /** The todos files loop. */
    method LinkTodosFiles(todos: seq<FileDetail>)
      modifies this
      ensures Linked() == AddTodosFiles(old(Linked()), todos)
      ensures sessionFiles == old(sessionFiles) && todosFiles == old(todosFiles)
    {
      for i := 0 to |todos|
        invariant Linked() == AddTodosFiles(old(Linked()), todos[..i])
        invariant sessionFiles == old(sessionFiles) && todosFiles == old(todosFiles)
      {
        assert todos[..i + 1][..i] == todos[..i];
        var name := TodosFileName(todos[i]);
        LinkTodosFile(todos[i], name);
      }
      assert todos[..|todos|] == todos;
    }

    /** One todos file, with what the pattern made of its name: when the
        name fits, an entry joins its session's list and the session joins
        its agent's set. */
    method LinkTodosFile(f: FileDetail, name: TodosName)
      modifies this
      ensures Linked() == AddTodosFile(old(Linked()), f, name)
      ensures sessionFiles == old(sessionFiles) && todosFiles == old(todosFiles)
    {
      if name.TodosName? {
        var sid, aid := name.sessionId, name.agentId;
        var entry := TodoEntry(f.path, aid, f.modified, f.size);
        // The default dicts: a missing key starts empty and joins the key order.
        var entries := if sid in sessionTodosMap then sessionTodosMap[sid] else [];
        if sid !in sessionTodosMap {
          sessionOrder := sessionOrder + [sid];
        }
        sessionTodosMap := sessionTodosMap[sid := entries + [entry]];
        var sessions := if aid in agentSessionMap then agentSessionMap[aid] else {};
        if aid !in agentSessionMap {
          agentOrder := agentOrder + [aid];
        }
        agentSessionMap := agentSessionMap[aid := sessions + {sid}];
      }
    }

    /** `_generate_relationship_analysis`: the summary figures and each part of the report. */
    method GenerateRelationshipAnalysis() returns (analysis: Relationships)
      requires Valid()
      ensures analysis == Report(sessionFiles, todosFiles, Linked())
    {
      var summary := Summary(|sessionFiles|, |sessionTodosMap|, |todosFiles|, |agentSessionMap|);
      var distribution := AnalyzeRelationshipDistribution();
      var reuse := AnalyzeAgentReuse();
      var complex := FindComplexRelationships();
      var details := CollectSessionDetails(0);
      ByTodosDescendingIsPreorder();
      analysis := Relationships(summary, distribution, reuse, complex, SortBy(details, ByTodosDescending));
    }

    /** `_analyze_relationship_distribution`: the counter of relationship types in one pass. */
    method AnalyzeRelationshipDistribution() returns (distribution: Distribution)
      ensures distribution == DistributionOf(sessionFiles, Linked())
    {
      var counts := TodoCounts(sessionOrder, sessionTodosMap);
      var labels := Buckets(counts);
      var types: map<string, nat> := map[];
      for i := 0 to |counts|
        invariant types == Tally(labels[..i])
      {
        var kind: string;
        if counts[i] == 1 {
          kind := "1:1";
        } else if counts[i] <= 5 {
          kind := "1:2-5";
        } else if counts[i] <= 10 {
          kind := "1:6-10";
        } else {
          kind := "1:10+";
        }
        types := TallyNext(types, labels, i, kind);
      }
      assert labels[..|labels|] == labels;
      distribution := Distribution(|sessionFiles| - |sessionTodosMap|, MaxCount(counts), types);
    }

    /** `_analyze_agent_reuse`: the counter, the reused agents and the
        running maximum in one pass over the agents. */
    method AnalyzeAgentReuse() returns (reuse: AgentReuse)
      requires Valid()
      ensures reuse == AgentReuseOf(Linked())
    {
      var counts := SessionCounts(agentOrder, agentSessionMap);
      var agentDistribution: map<nat, nat> := map[];
      var reused: nat := 0;
      var maxSessions: nat := 0;
      for i := 0 to |agentOrder|
        invariant agentDistribution == Tally(counts[..i])
        invariant reused == CountAbove(counts[..i], 1)
        invariant maxSessions == MaxCount(counts[..i])
      {
        assert counts[..i + 1][..i] == counts[..i];
        var sessionCount := |agentSessionMap[agentOrder[i]]|;
        assert sessionCount == counts[i] by {
          SessionCountsAt(agentOrder, agentSessionMap);
        }
        agentDistribution := TallyNext<nat>(agentDistribution, counts, i, sessionCount);
        if sessionCount > 1 {
          reused := reused + 1;
        }
        if sessionCount > maxSessions {
          maxSessions := sessionCount;
        }
      }
      assert counts[..|counts|] == counts;
      reuse := AgentReuse(|agentSessionMap|, reused, maxSessions, agentDistribution);
    }

    /** The details of the sessions with a session file and more than
        `above` todos files, in the order the sessions were first seen. */
    method CollectSessionDetails(above: nat) returns (details: seq<SessionDetail>)
      ensures details == DetailsOf(sessionOrder, sessionTodosMap, sessionFiles, above)
    {
      details := [];
      for i := 0 to |sessionOrder|
        invariant details == DetailsOf(sessionOrder[..i], sessionTodosMap, sessionFiles, above)
      {
        assert sessionOrder[..i + 1][..i] == sessionOrder[..i];
        var sessionId := sessionOrder[i];
        if sessionId in sessionTodosMap && |sessionTodosMap[sessionId]| > above && sessionId in sessionFiles {
          details := details + [Detail(sessionId, sessionFiles[sessionId], sessionTodosMap[sessionId])];
        }
      }
      assert sessionOrder[..|sessionOrder|] == sessionOrder;
    }

    /** `_find_complex_relationships`: the ten sessions with most todos files among those with more than one. */
    method FindComplexRelationships() returns (complex: seq<SessionDetail>)
      ensures complex == ComplexRelationships(Linked(), sessionFiles)
    {
      var candidates := CollectSessionDetails(1);
      ByTodosDescendingIsPreorder();
      var sorted := SortBy(candidates, ByTodosDescending);
      complex := sorted[..Min(10, |sorted|)];
    }
  }
}
