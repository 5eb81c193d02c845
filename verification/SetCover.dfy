// The greedy minimum session cover of the T03 analyzer
// (src/claude-code-analyzer/tasks/T03_minimal_set_cover/set_cover_analyzer.py):
// the session index (each session's signature set and the inverse index
// from signatures to sessions), what a greedy round may pick, and the
// per-session coverage figures of the efficiency report.

module SessionCover {
  import opened Text
  import opened Ordering
  import opened JsonModel
  import opened StructureTypes

  // ---------------------------------------------------------------------
  // The session index.

  /** A session file's id and the object-type signatures the T02 analyzer found in it. */
  datatype SessionFile = SessionFile(sessionId: string, types: set<string>)

  /** The example cap of a T02 analyzer built with its defaults. */
  const DefaultMaxExamples := 5

  /** The T02 table after a fresh analyzer has walked a session file's records in order. */
  function FileTable(records: seq<Json>): TypeTable {
    if records == [] then EmptyTable
    else RecordAnalyzed(FileTable(records[..|records| - 1]), records[|records| - 1], DefaultMaxExamples)
  }

  /** `_analyze_session_file` on a readable file: the signatures the file's table holds. */
  function FileSignatures(records: seq<Json>): set<string> {
    FileTable(records).types.Keys
  }

  /** Walking one record adds exactly the signatures of the objects it visits. */
  lemma RecordAnalyzedKeys(tab: TypeTable, record: Json, k: string)
    requires TableOk(tab, DefaultMaxExamples)
    ensures k in RecordAnalyzed(tab, record, DefaultMaxExamples).types
            <==> k in tab.types || k in Signatures(Visited(record, RecordDepth))
  {
    var r := RecordAnalyzed(tab, record, DefaultMaxExamples);
    var sigs := Signatures(Visited(record, RecordDepth));
    assert CountOf(r, k) == CountOf(tab, k) + Occurrences(sigs, k);
    assert k in tab.types ==> tab.types[k].count >= 1;
    assert k in r.types ==> r.types[k].count >= 1;
  }

  /** The signatures of the objects met in walking every record. */
  function SeenSignatures(records: seq<Json>): set<string> {
    if records == [] then {}
    else
      var sigs := Signatures(Visited(records[|records| - 1], RecordDepth));
      SeenSignatures(records[..|records| - 1]) + set x | x in sigs
  }

  lemma {:induction false} FileTableOk(records: seq<Json>)
    ensures TableOk(FileTable(records), DefaultMaxExamples)
  {
    if records != [] {
      FileTableOk(records[..|records| - 1]);
    }
  }

  /** A session's types are exactly the signatures of the objects met in walking its records. */
  lemma {:induction false} FileSignaturesSeen(records: seq<Json>)
    ensures FileSignatures(records) == SeenSignatures(records)
  {
    if records != [] {
      var init := records[..|records| - 1];
      var last := records[|records| - 1];
      FileSignaturesSeen(init);
      FileTableOk(init);
      forall k ensures k in FileSignatures(records) <==> k in SeenSignatures(records) {
        RecordAnalyzedKeys(FileTable(init), last, k);
      }
    }
  }

  /**
   * `session_types` (with its keys in insertion order), the inverse index
   * `type_sessions` and `all_types`.
   */
  datatype CoverIndex = CoverIndex(
    order: seq<string>,
    sessionTypes: map<string, set<string>>,
    typeSessions: map<string, set<string>>,
    allTypes: set<string>)

  const EmptyIndex := CoverIndex([], map[], map[], {})

  /** `type_sessions[t].add(s)` for every `t` of `ts`. */
  function WithSession(inv: map<string, set<string>>, ts: set<string>, s: string): map<string, set<string>> {
    map t | t in inv.Keys + ts :: (if t in inv then inv[t] else {}) + (if t in ts then {s} else {})
  }

  lemma WithNoSession(inv: map<string, set<string>>, s: string)
    ensures WithSession(inv, {}, s) == inv
  {
    assert forall t :: t in inv ==> WithSession(inv, {}, s)[t] == inv[t];
  }

  /** Indexing one more type under the session updates that type's entry only. */
  lemma WithSessionStep(inv: map<string, set<string>>, done: set<string>, s: string, t: string)
    requires t !in done
    ensures WithSession(inv, done + {t}, s)
            == WithSession(inv, done, s)[t := (if t in inv then inv[t] else {}) + {s}]
  {
    var a := WithSession(inv, done + {t}, s);
    var b := WithSession(inv, done, s)[t := (if t in inv then inv[t] else {}) + {s}];
    assert a.Keys == b.Keys;
    forall u | u in a ensures a[u] == b[u] {
      if u != t {
        assert u in done + {t} <==> u in done;
      }
    }
  }

  /** One session file of `analyze_session_types`: recorded only when it has types. */
  function Recorded(idx: CoverIndex, f: SessionFile): (r: CoverIndex)
    ensures f.types == {} ==> r == idx
    ensures f.types != {} ==> r.sessionTypes == idx.sessionTypes[f.sessionId := f.types]
    ensures r.allTypes == idx.allTypes + f.types
  {
    if f.types == {} then idx
    else
      CoverIndex(
        if f.sessionId in idx.sessionTypes then idx.order else idx.order + [f.sessionId],
        idx.sessionTypes[f.sessionId := f.types],
        WithSession(idx.typeSessions, f.types, f.sessionId),
        idx.allTypes + f.types)
  }

  function RecordedAll(idx: CoverIndex, files: seq<SessionFile>): CoverIndex {
    if files == [] then idx else Recorded(RecordedAll(idx, files[..|files| - 1]), files[|files| - 1])
  }

  /**
   * `session_files[:max_sessions]` when `max_sessions` is truthy; 0 stands
   * for both an absent and a zero limit. A negative limit drops that many
   * files from the end, as a Python slice does.
   */
  function Limited(files: seq<SessionFile>, maxSessions: int): (r: seq<SessionFile>)
    ensures |r| <= |files| && r == files[..|r|]
    ensures maxSessions == 0 ==> r == files
    ensures maxSessions > 0 ==> |r| == Min(maxSessions, |files|)
    ensures maxSessions < 0 ==> |r| == Max(0, |files| + maxSessions)
  {
    if maxSessions == 0 then files
    else if maxSessions > 0 then files[..Min(maxSessions, |files|)]
    else files[..Max(0, |files| + maxSessions)]
  }

  /** Sessions are listed once each, in insertion order. */
  ghost predicate OrderOk(idx: CoverIndex) {
    Distinct(idx.order) && forall s :: s in idx.sessionTypes <==> s in idx.order
  }

  /** Recorded sets are non-empty and drawn from `all_types`. */
  ghost predicate SessionsOk(idx: CoverIndex) {
    forall s :: s in idx.sessionTypes ==> idx.sessionTypes[s] != {} && idx.sessionTypes[s] <= idx.allTypes
  }

  /** Every type of every session is indexed under that session. */
  ghost predicate Complete(idx: CoverIndex) {
    forall s, t :: s in idx.sessionTypes && t in idx.sessionTypes[s] ==> t in idx.typeSessions && s in idx.typeSessions[t]
  }

  /** `all_types` is the key set of the inverse index, whose entries name recorded sessions. */
  ghost predicate InverseOk(idx: CoverIndex) {
    idx.typeSessions.Keys == idx.allTypes
    && forall t :: t in idx.typeSessions ==> idx.typeSessions[t] != {} && idx.typeSessions[t] <= idx.sessionTypes.Keys
  }

  /** What the index always keeps, whatever the session ids. */
  ghost predicate IndexOk(idx: CoverIndex) {
    OrderOk(idx) && SessionsOk(idx) && Complete(idx) && InverseOk(idx)
  }

  /** The inverse index is exact. */
  ghost predicate Exact(idx: CoverIndex) {
    forall t, s :: t in idx.typeSessions && s in idx.typeSessions[t] ==> s in idx.sessionTypes && t in idx.sessionTypes[s]
  }

  lemma EmptyIndexOk()
    ensures IndexOk(EmptyIndex) && Exact(EmptyIndex)
  {
  }

  lemma RecordedKeepsOrder(idx: CoverIndex, f: SessionFile)
    requires OrderOk(idx)
    ensures OrderOk(Recorded(idx, f))
  {
    if f.types != {} && f.sessionId !in idx.sessionTypes {
      var r := Recorded(idx, f);
      PrefixSnoc(r.order, |idx.order|);
      assert r.order[..|idx.order|] == idx.order;
    }
  }

  lemma RecordedKeepsComplete(idx: CoverIndex, f: SessionFile)
    requires Complete(idx)
    ensures Complete(Recorded(idx, f))
  {
    if f.types != {} {
      var r := Recorded(idx, f);
      forall s, t | s in r.sessionTypes && t in r.sessionTypes[s] ensures t in r.typeSessions && s in r.typeSessions[t] {
        if s == f.sessionId {
          assert t in f.types;
        } else {
          assert t in idx.sessionTypes[s];
        }
      }
    }
  }

  lemma RecordedKeepsInverse(idx: CoverIndex, f: SessionFile)
    requires InverseOk(idx)
    ensures InverseOk(Recorded(idx, f))
  {
  }

  lemma RecordedKeepsSessions(idx: CoverIndex, f: SessionFile)
    requires SessionsOk(idx)
    ensures SessionsOk(Recorded(idx, f))
  {
  }

  lemma RecordedKeepsOk(idx: CoverIndex, f: SessionFile)
    requires IndexOk(idx)
    ensures IndexOk(Recorded(idx, f))
  {
    RecordedKeepsSessions(idx, f);
    RecordedKeepsOrder(idx, f);
    RecordedKeepsComplete(idx, f);
    RecordedKeepsInverse(idx, f);
  }

  /** Recording a session id not seen before keeps the index exact. */
  lemma RecordedNewKeepsExact(idx: CoverIndex, f: SessionFile)
    requires InverseOk(idx) && Exact(idx) && f.sessionId !in idx.sessionTypes
    ensures Exact(Recorded(idx, f))
  {
    if f.types != {} {
      var r := Recorded(idx, f);
      forall t, s | t in r.typeSessions && s in r.typeSessions[t] ensures s in r.sessionTypes && t in r.sessionTypes[s] {
        if s == f.sessionId {
          assert s !in idx.sessionTypes;
          assert t !in idx.typeSessions || s !in idx.typeSessions[t];
          assert t in f.types;
        } else {
          assert t in idx.typeSessions && s in idx.typeSessions[t];
        }
      }
    }
  }

  lemma {:induction false} RecordedAllOk(idx: CoverIndex, files: seq<SessionFile>)
    requires IndexOk(idx)
    ensures IndexOk(RecordedAll(idx, files))
  {
    if files != [] {
      RecordedAllOk(idx, files[..|files| - 1]);
      RecordedKeepsOk(RecordedAll(idx, files[..|files| - 1]), files[|files| - 1]);
    }
  }

  lemma {:induction false} RecordedAllInverse(idx: CoverIndex, files: seq<SessionFile>)
    requires InverseOk(idx)
    ensures InverseOk(RecordedAll(idx, files))
  {
    if files != [] {
      RecordedAllInverse(idx, files[..|files| - 1]);
      RecordedKeepsInverse(RecordedAll(idx, files[..|files| - 1]), files[|files| - 1]);
    }
  }

  /** No two files carry the same session id, and none is already recorded. */
  predicate FreshIds(idx: CoverIndex, files: seq<SessionFile>) {
    (forall i, j :: 0 <= i < j < |files| ==> files[i].sessionId != files[j].sessionId)
    && forall i :: 0 <= i < |files| ==> files[i].sessionId !in idx.sessionTypes
  }

  lemma {:induction false} RecordedAllKeys(idx: CoverIndex, files: seq<SessionFile>)
    ensures RecordedAll(idx, files).sessionTypes.Keys <= idx.sessionTypes.Keys + set i | 0 <= i < |files| :: files[i].sessionId
  {
    if files != [] {
      RecordedAllKeys(idx, files[..|files| - 1]);
    }
  }

  /** With distinct, unseen session ids the inverse index stays exact. */
  lemma {:induction false} RecordedAllExact(idx: CoverIndex, files: seq<SessionFile>)
    requires InverseOk(idx) && Exact(idx) && FreshIds(idx, files)
    ensures Exact(RecordedAll(idx, files))
  {
    if files != [] {
      var init := files[..|files| - 1];
      var last := files[|files| - 1];
      assert FreshIds(idx, init);
      RecordedAllExact(idx, init);
      RecordedAllInverse(idx, init);
      RecordedAllKeys(idx, init);
      RecordedNewKeepsExact(RecordedAll(idx, init), last);
    }
  }

  /**
   * A repeated session id replaces the session's set but leaves the old
   * types in `all_types` and in the inverse index, so the index is no longer
   * exact and no session holds the old type any more.
   */
  lemma RepeatedIdLeavesStaleTypes()
    ensures var idx := RecordedAll(EmptyIndex, [SessionFile("s", {"a"}), SessionFile("s", {"b"})]);
            idx.order == ["s"] && idx.sessionTypes == map["s" := {"b"}]
            && idx.allTypes == {"a", "b"} && "s" in idx.typeSessions["a"]
            && !Exact(idx)
  {
    var files := [SessionFile("s", {"a"}), SessionFile("s", {"b"})];
    var one := Recorded(EmptyIndex, files[0]);
    assert files[..1][..0] == [];
    assert RecordedAll(EmptyIndex, files[..1]) == one;
    var idx := Recorded(one, files[1]);
    assert RecordedAll(EmptyIndex, files) == idx;
    assert idx.typeSessions["a"] == {"s"};
    assert "a" !in idx.sessionTypes["s"];
  }

  // ---------------------------------------------------------------------
  // Union of the sets of a sequence of sessions.

  function Union(types: map<string, set<string>>, sel: seq<string>): (r: set<string>)
    requires forall s :: s in sel ==> s in types
    ensures forall i :: 0 <= i < |sel| ==> types[sel[i]] <= r
  {
    if sel == [] then {}
    else
      var init := sel[..|sel| - 1];
      assert forall i :: 0 <= i < |init| ==> init[i] == sel[i];
      Union(types, init) + types[sel[|sel| - 1]]
  }

  /** A union of sets that all lie within a bound lies within it. */
  lemma {:induction false} UnionWithin(types: map<string, set<string>>, sel: seq<string>, bound: set<string>)
    requires forall s :: s in sel ==> s in types && types[s] <= bound
    ensures Union(types, sel) <= bound
  {
    if sel != [] {
      UnionWithin(types, sel[..|sel| - 1], bound);
    }
  }

  /** Each type of a union comes from one of its sessions. */
  lemma {:induction false} UnionMember(types: map<string, set<string>>, sel: seq<string>, t: string)
    requires forall s :: s in sel ==> s in types
    requires t in Union(types, sel)
    ensures exists i :: 0 <= i < |sel| && t in types[sel[i]]
  {
    var init := sel[..|sel| - 1];
    if t in Union(types, init) {
      UnionMember(types, init, t);
      var i :| 0 <= i < |init| && t in types[init[i]];
      assert init[i] == sel[i];
    } else {
      assert t in types[sel[|sel| - 1]];
    }
  }

  lemma UnionSnoc(types: map<string, set<string>>, sel: seq<string>, k: nat)
    requires forall s :: s in sel ==> s in types
    requires k < |sel|
    ensures Union(types, sel[..k + 1]) == Union(types, sel[..k]) + types[sel[k]]
  {
    assert sel[..k + 1][..k] == sel[..k];
  }

  /** An exact index's types are exactly those of its sessions. */
  lemma ExactUnion(idx: CoverIndex)
    requires OrderOk(idx) && SessionsOk(idx) && InverseOk(idx) && Exact(idx)
    ensures idx.allTypes == Union(idx.sessionTypes, idx.order)
  {
    forall t | t in idx.allTypes ensures t in Union(idx.sessionTypes, idx.order) {
      ExactHolder(idx, t);
    }
    UnionWithin(idx.sessionTypes, idx.order, idx.allTypes);
  }

  lemma ExactHolder(idx: CoverIndex, t: string)
    requires OrderOk(idx) && InverseOk(idx) && Exact(idx)
    requires t in idx.allTypes
    ensures t in Union(idx.sessionTypes, idx.order)
  {
    var holders := idx.typeSessions[t];
    var s :| s in holders;
    assert s in idx.sessionTypes && t in idx.sessionTypes[s];
    var i :| 0 <= i < |idx.order| && idx.order[i] == s;
  }

  // ---------------------------------------------------------------------
  // Greedy rounds.

  /** How many still uncovered types a session would cover. */
  function Gain(types: map<string, set<string>>, s: string, uncovered: set<string>): nat
    requires s in types
  {
    |types[s] * uncovered|
  }

  function IndexOf(order: seq<string>, s: string): (i: nat)
    requires s in order
    ensures i < |order| && order[i] == s
    ensures forall j :: 0 <= j < i ==> order[j] != s
  {
    if order[0] == s then 0
    else
      assert s in order[1..] by { var k :| 0 <= k < |order| && order[k] == s; assert order[1..][k - 1] == s; }
      1 + IndexOf(order[1..], s)
  }

  /**
   * The session a greedy round picks: not yet selected, covering at least
   * one uncovered type, covering no fewer than any other unselected session,
   * and earliest in insertion order among those covering as many.
   */
  ghost predicate BestChoice(order: seq<string>, types: map<string, set<string>>, sel: seq<string>,
                             uncovered: set<string>, s: string)
    requires forall x :: x in order ==> x in types
  {
    s in order && s !in sel && Gain(types, s, uncovered) > 0
    && forall i :: 0 <= i < |order| && order[i] !in sel ==>
         Gain(types, order[i], uncovered) < Gain(types, s, uncovered)
         || (Gain(types, order[i], uncovered) == Gain(types, s, uncovered) && IndexOf(order, s) <= i)
  }

  /** No unselected session covers anything still uncovered. */
  ghost predicate NothingGains(order: seq<string>, types: map<string, set<string>>, sel: seq<string>, uncovered: set<string>)
    requires forall x :: x in order ==> x in types
  {
    forall i :: 0 <= i < |order| && order[i] !in sel ==> Gain(types, order[i], uncovered) == 0
  }

  /** Among the first `i` sessions, the one at `at` is the one a round's scan keeps. */
  ghost predicate LeadsPrefix(order: seq<string>, types: map<string, set<string>>, sel: seq<string>,
                              uncovered: set<string>, i: nat, at: nat)
    requires forall x :: x in order ==> x in types
  {
    at < i <= |order| && order[at] !in sel && Gain(types, order[at], uncovered) > 0
    && (forall j :: 0 <= j < at && order[j] !in sel ==> Gain(types, order[j], uncovered) < Gain(types, order[at], uncovered))
    && (forall j :: at < j < i && order[j] !in sel ==> Gain(types, order[j], uncovered) <= Gain(types, order[at], uncovered))
  }

  /** None of the first `i` unselected sessions covers anything uncovered. */
  ghost predicate NoGainPrefix(order: seq<string>, types: map<string, set<string>>, sel: seq<string>,
                               uncovered: set<string>, i: nat)
    requires forall x :: x in order ==> x in types
  {
    i <= |order| && forall j :: 0 <= j < i && order[j] !in sel ==> Gain(types, order[j], uncovered) == 0
  }

  lemma NoGainExtend(order: seq<string>, types: map<string, set<string>>, sel: seq<string>, uncovered: set<string>, i: nat)
    requires forall x :: x in order ==> x in types
    requires NoGainPrefix(order, types, sel, uncovered, i) && i < |order|
    requires order[i] in sel || Gain(types, order[i], uncovered) == 0
    ensures NoGainPrefix(order, types, sel, uncovered, i + 1)
  {
  }

  lemma LeadsExtend(order: seq<string>, types: map<string, set<string>>, sel: seq<string>, uncovered: set<string>, i: nat, at: nat)
    requires forall x :: x in order ==> x in types
    requires LeadsPrefix(order, types, sel, uncovered, i, at) && i < |order|
    requires order[i] in sel || Gain(types, order[i], uncovered) <= Gain(types, order[at], uncovered)
    ensures LeadsPrefix(order, types, sel, uncovered, i + 1, at)
  {
  }

  /** A session covering more than every earlier one takes the lead. */
  lemma LeadsTake(order: seq<string>, types: map<string, set<string>>, sel: seq<string>, uncovered: set<string>, i: nat, bound: nat)
    requires forall x :: x in order ==> x in types
    requires i < |order| && order[i] !in sel && Gain(types, order[i], uncovered) > bound
    requires forall j :: 0 <= j < i && order[j] !in sel ==> Gain(types, order[j], uncovered) <= bound
    ensures LeadsPrefix(order, types, sel, uncovered, i + 1, i)
  {
  }

  /** What a leader or an empty prefix lets every earlier session cover at most. */
  lemma PrefixBound(order: seq<string>, types: map<string, set<string>>, sel: seq<string>, uncovered: set<string>, i: nat, at: nat)
    requires forall x :: x in order ==> x in types
    requires LeadsPrefix(order, types, sel, uncovered, i, at)
    ensures forall j :: 0 <= j < i && order[j] !in sel ==> Gain(types, order[j], uncovered) <= Gain(types, order[at], uncovered)
  {
  }

  /** The scan's leader over all sessions is the round's best choice. */
  lemma LeaderIsBest(order: seq<string>, types: map<string, set<string>>, sel: seq<string>, uncovered: set<string>, at: nat)
    requires forall x :: x in order ==> x in types
    requires Distinct(order) && LeadsPrefix(order, types, sel, uncovered, |order|, at)
    ensures BestChoice(order, types, sel, uncovered, order[at])
  {
    assert IndexOf(order, order[at]) == at;
  }

  /** A round's pick is determined: two best choices are the same session. */
  lemma BestChoiceUnique(order: seq<string>, types: map<string, set<string>>, sel: seq<string>,
                         uncovered: set<string>, s1: string, s2: string)
    requires forall x :: x in order ==> x in types
    requires BestChoice(order, types, sel, uncovered, s1) && BestChoice(order, types, sel, uncovered, s2)
    ensures s1 == s2
  {
    var i1 := IndexOf(order, s1);
    var i2 := IndexOf(order, s2);
    assert IndexOf(order, s1) <= i2;
    assert IndexOf(order, s2) <= i1;
  }

  /** Every selection so far is the best choice of its round. */
  ghost predicate GreedyRun(order: seq<string>, types: map<string, set<string>>, all: set<string>, sel: seq<string>)
    requires forall x :: x in order ==> x in types
  {
    (forall s :: s in sel ==> s in types)
    && forall k :: 0 <= k < |sel| ==>
         BestChoice(order, types, sel[..k], all - Union(types, sel[..k]), sel[k])
  }

  /** Taking a round's best choice extends a greedy run. */
  lemma GreedyRunSnoc(order: seq<string>, types: map<string, set<string>>, all: set<string>, sel: seq<string>, s: string)
    requires forall x :: x in order ==> x in types
    requires GreedyRun(order, types, all, sel)
    requires BestChoice(order, types, sel, all - Union(types, sel), s)
    ensures GreedyRun(order, types, all, sel + [s])
  {
    var next := sel + [s];
    forall k | 0 <= k < |next| ensures BestChoice(order, types, next[..k], all - Union(types, next[..k]), next[k]) {
      SnocPrefix(sel, s, k);
    }
  }

  /** Selecting a session removes exactly its newly covered types from the uncovered set,
      and when it covers something the uncovered set shrinks. */
  lemma CoverStep(types: map<string, set<string>>, all: set<string>, sel: seq<string>, s: string)
    requires forall x :: x in sel ==> x in types
    requires s in types
    ensures all - Union(types, sel + [s]) == (all - Union(types, sel)) - types[s] * (all - Union(types, sel))
    ensures types[s] * (all - Union(types, sel)) != {} ==> |all - Union(types, sel + [s])| < |all - Union(types, sel)|
  {
    var next := sel + [s];
    UnionSnoc(types, next, |sel|);
    assert next[..|sel| + 1] == next && next[..|sel|] == sel;
    var before := all - Union(types, sel);
    var gained := types[s] * before;
    if gained != {} {
      var t :| t in gained;
      SubsetCardinality(before - gained, before - {t});
    }
  }

  /** A greedy run never picks a session twice and uncovers fewer types each round,
      so it has at most as many rounds as there are types and as sessions. */
  lemma {:induction false} GreedyRunBounds(order: seq<string>, types: map<string, set<string>>, all: set<string>, sel: seq<string>)
    requires forall x :: x in order ==> x in types
    requires GreedyRun(order, types, all, sel)
    ensures Distinct(sel)
    ensures forall s :: s in sel ==> s in order
    ensures |all - Union(types, sel)| + |sel| <= |all|
    ensures |sel| <= |order|
  {
    if sel != [] {
      var k := |sel| - 1;
      var init, s := sel[..k], sel[k];
      SnocSplit(sel);
      GreedyRunPrefix(order, types, all, sel, k);
      GreedyRunBounds(order, types, all, init);
      assert BestChoice(order, types, init, all - Union(types, init), s);
      CoverStep(types, all, init, s);
      DistinctSnoc(init, s);
      DistinctSubsetLength(sel, order);
    }
  }

  lemma SnocPrefix(sel: seq<string>, s: string, k: nat)
    requires k <= |sel|
    ensures (sel + [s])[..k] == sel[..k] && (k < |sel| ==> (sel + [s])[k] == sel[k])
    ensures k == |sel| ==> (sel + [s])[k] == s && sel[..k] == sel
  {
  }

  lemma SnocSplit(s: seq<string>)
    requires s != []
    ensures s == s[..|s| - 1] + [s[|s| - 1]]
  {
  }

  lemma GreedyRunPrefix(order: seq<string>, types: map<string, set<string>>, all: set<string>, sel: seq<string>, n: nat)
    requires forall x :: x in order ==> x in types
    requires GreedyRun(order, types, all, sel) && n <= |sel|
    ensures GreedyRun(order, types, all, sel[..n])
  {
    forall j | 0 <= j < n ensures sel[..n][..j] == sel[..j] {}
  }

  /** When no unselected session gains anything and every type belongs to some
      session, nothing is left uncovered. */
  lemma FullCover(order: seq<string>, types: map<string, set<string>>, all: set<string>, sel: seq<string>)
    requires forall x :: x in order ==> x in types
    requires forall s :: s in sel ==> s in types
    requires all <= Union(types, order)
    requires NothingGains(order, types, sel, all - Union(types, sel))
    ensures all <= Union(types, sel)
  {
    forall t | t in all ensures t in Union(types, sel) {
      TypeCovered(order, types, all, sel, t);
    }
  }

  lemma TypeCovered(order: seq<string>, types: map<string, set<string>>, all: set<string>, sel: seq<string>, t: string)
    requires forall x :: x in order ==> x in types
    requires forall s :: s in sel ==> s in types
    requires t in all && t in Union(types, order)
    requires NothingGains(order, types, sel, all - Union(types, sel))
    ensures t in Union(types, sel)
  {
    UnionMember(types, order, t);
    var i :| 0 <= i < |order| && t in types[order[i]];
    var covered := Union(types, sel);
    if order[i] in sel {
      var j :| 0 <= j < |sel| && sel[j] == order[i];
      assert types[sel[j]] <= covered;
    } else {
      assert Gain(types, order[i], all - covered) == 0;
      assert types[order[i]] * (all - covered) == {};
      assert t !in types[order[i]] * (all - covered);
    }
  }

  // ---------------------------------------------------------------------
  // Coverage figures of `analyze_coverage_efficiency`.

  /** One entry of `session_details` without its project and file figures. */
  datatype SessionDetail = SessionDetail(rank: nat, sessionId: string, totalTypes: nat, newTypes: nat, cumulative: nat)

  /** The detail of the `k`-th selected session: its size, what it adds to the
      sessions before it, and the coverage so far. */
  function DetailAt(types: map<string, set<string>>, sel: seq<string>, k: nat): SessionDetail
    requires forall s :: s in sel ==> s in types
    requires k < |sel|
  {
    SessionDetail(k + 1, sel[k], |types[sel[k]]|, |types[sel[k]] - Union(types, sel[..k])|, |Union(types, sel[..k + 1])|)
  }

  function NewTypesTotal(details: seq<SessionDetail>): nat {
    if details == [] then 0 else NewTypesTotal(details[..|details| - 1]) + details[|details| - 1].newTypes
  }

  /** Coverage never goes down along the ranks, and each session adds exactly its new types. */
  lemma CumulativeGrows(types: map<string, set<string>>, sel: seq<string>, k: nat)
    requires forall s :: s in sel ==> s in types
    requires k < |sel|
    ensures DetailAt(types, sel, k).cumulative == |Union(types, sel[..k])| + DetailAt(types, sel, k).newTypes
    ensures 0 < k ==> DetailAt(types, sel, k - 1).cumulative <= DetailAt(types, sel, k).cumulative
  {
    var before := Union(types, sel[..k]);
    var s := types[sel[k]];
    UnionSnoc(types, sel, k);
    assert before + s == before + (s - before);
    assert before * (s - before) == {};
  }

  /** Details for every selected session, rank by rank. */
  ghost predicate DetailsOf(types: map<string, set<string>>, sel: seq<string>, details: seq<SessionDetail>)
    requires forall s :: s in sel ==> s in types
  {
    |details| == |sel| && forall k :: 0 <= k < |sel| ==> details[k] == DetailAt(types, sel, k)
  }

  /** The contributions of the first `n` ranks add up to the types those sessions cover. */
  lemma {:induction false} ContributionsSum(types: map<string, set<string>>, sel: seq<string>, details: seq<SessionDetail>, n: nat)
    requires forall s :: s in sel ==> s in types
    requires DetailsOf(types, sel, details) && n <= |sel|
    ensures NewTypesTotal(details[..n]) == |Union(types, sel[..n])|
  {
    if n > 0 {
      ContributionsSum(types, sel, details, n - 1);
      assert details[..n][..n - 1] == details[..n - 1];
      CumulativeGrows(types, sel, n - 1);
    }
  }

  /** Along a greedy run every selected session contributes new types. */
  lemma GreedyContributes(order: seq<string>, types: map<string, set<string>>, all: set<string>, sel: seq<string>, k: nat)
    requires forall x :: x in order ==> x in types
    requires GreedyRun(order, types, all, sel) && k < |sel|
    ensures DetailAt(types, sel, k).newTypes > 0
  {
    var before := Union(types, sel[..k]);
    assert BestChoice(order, types, sel[..k], all - before, sel[k]);
    var t :| t in types[sel[k]] * (all - before);
    assert t in types[sel[k]] - before;
  }

  // ---------------------------------------------------------------------
  // The type frequencies of the efficiency report.

  /** `type_frequencies[t]` after counting the sessions of `order` in turn:
      how many of them hold `t`. */
  function Frequency(types: map<string, set<string>>, order: seq<string>, t: string): (n: nat)
    ensures n <= |order|
  {
    if order == [] then 0
    else
      var s := order[|order| - 1];
      Frequency(types, order[..|order| - 1], t) + (if s in types && t in types[s] then 1 else 0)
  }

  /** The keys of `type_frequencies`: every type some counted session holds. */
  function HeldTypes(types: map<string, set<string>>, order: seq<string>): set<string> {
    set s, t | s in order && s in types && t in types[s] :: t
  }

  /** The types held by exactly one session. */
  function RareTypes(types: map<string, set<string>>, order: seq<string>): set<string> {
    set t | t in HeldTypes(types, order) && Frequency(types, order, t) == 1
  }

  /** The types held by at least `n` sessions. */
  function TypesHeldBy(types: map<string, set<string>>, order: seq<string>, n: nat): set<string> {
    set t | t in HeldTypes(types, order) && Frequency(types, order, t) >= n
  }

  /** `type_frequency_analysis`. */
  datatype FrequencyReport = FrequencyReport(rare: nat, commonFivePlus: nat, veryCommonTenPlus: nat)

  function FrequencyAnalysis(types: map<string, set<string>>, order: seq<string>): FrequencyReport {
    FrequencyReport(|RareTypes(types, order)|, |TypesHeldBy(types, order, 5)|, |TypesHeldBy(types, order, 10)|)
  }

  /** The counter's entry for `t`, zero when absent. */
  function Tallied(freq: map<string, nat>, t: string): nat {
    if t in freq then freq[t] else 0
  }

  /** `type_frequencies[t] += 1` for every type `t` of one session. */
  function CountedOnce(freq: map<string, nat>, ts: set<string>): map<string, nat> {
    map t | t in freq.Keys + ts :: Tallied(freq, t) + (if t in ts then 1 else 0)
  }

  lemma CountedNothing(freq: map<string, nat>)
    ensures CountedOnce(freq, {}) == freq
  {
    assert forall t :: t in freq ==> CountedOnce(freq, {})[t] == freq[t];
  }

  /** Counting one more type of the session updates that type's entry only. */
  lemma CountedStep(freq: map<string, nat>, done: set<string>, t: string)
    requires t !in done
    ensures CountedOnce(freq, done + {t}) == CountedOnce(freq, done)[t := Tallied(freq, t) + 1]
  {
    var a := CountedOnce(freq, done + {t});
    var b := CountedOnce(freq, done)[t := Tallied(freq, t) + 1];
    assert a.Keys == b.Keys;
    forall u | u in a ensures a[u] == b[u] {
      if u != t {
        assert u in done + {t} <==> u in done;
      }
    }
  }

  /** Counting one more session adds its types to the keys and one to each of their counts. */
  lemma FrequencySnoc(types: map<string, set<string>>, order: seq<string>, i: nat)
    requires i < |order| && order[i] in types
    ensures HeldTypes(types, order[..i + 1]) == HeldTypes(types, order[..i]) + types[order[i]]
    ensures forall t :: Frequency(types, order[..i + 1], t)
                          == Frequency(types, order[..i], t) + (if t in types[order[i]] then 1 else 0)
  {
    assert order[..i + 1][..i] == order[..i];
    PrefixSnoc(order, i);
  }

  /** A type is a key of the counter exactly when some session holds it. */
  lemma {:induction false} FrequencyHeld(types: map<string, set<string>>, order: seq<string>, t: string)
    ensures t in HeldTypes(types, order) <==> Frequency(types, order, t) > 0
  {
    if order != [] {
      var n := |order| - 1;
      FrequencyHeld(types, order[..n], t);
      assert order == order[..n] + [order[n]];
      assert HeldTypes(types, order) == HeldTypes(types, order[..n]) + (if order[n] in types then types[order[n]] else {}) by {
        PrefixSnoc(order, n);
        assert order[..n + 1] == order;
      }
    }
  }

  /** With each session listed once, a type's count is the number of sessions holding it. */
  lemma {:induction false} FrequencyCountsSessions(types: map<string, set<string>>, order: seq<string>, t: string)
    requires Distinct(order)
    ensures Frequency(types, order, t) == |set s | s in order && s in types && t in types[s]|
  {
    if order != [] {
      var n := |order| - 1;
      var init := order[..n];
      FrequencyCountsSessions(types, init, t);
      PrefixSnoc(order, n);
      assert order[..n + 1] == order;
      var before := set s | s in init && s in types && t in types[s];
      var after := set s | s in order && s in types && t in types[s];
      assert order[n] !in init;
      if order[n] in types && t in types[order[n]] {
        assert after == before + {order[n]};
      } else {
        assert after == before;
      }
    }
  }

  /** With an exact index, a type's count is the size of its inverse index entry. */
  lemma FrequencyIsInverseSize(idx: CoverIndex, t: string)
    requires IndexOk(idx) && Exact(idx) && t in idx.typeSessions
    ensures Frequency(idx.sessionTypes, idx.order, t) == |idx.typeSessions[t]|
  {
    var types, entry := idx.sessionTypes, idx.typeSessions[t];
    FrequencyCountsSessions(types, idx.order, t);
    assert forall s :: s in entry ==> s in idx.order && s in types && t in types[s];
    assert forall s :: s in idx.order && s in types && t in types[s] ==> s in entry;
    HoldersAre(types, idx.order, t, entry);
  }

  lemma HoldersAre(types: map<string, set<string>>, order: seq<string>, t: string, entry: set<string>)
    requires forall s :: s in entry ==> s in order && s in types && t in types[s]
    requires forall s :: s in order && s in types && t in types[s] ==> s in entry
    ensures (set s | s in order && s in types && t in types[s]) == entry
  {
  }

  /**
   * The three figures: no more very common types than common ones, and the
   * rare and the common types are different types, so together they number
   * at most the types held.
   */
  lemma FrequencyAnalysisBounds(types: map<string, set<string>>, order: seq<string>)
    ensures var r := FrequencyAnalysis(types, order);
            r.veryCommonTenPlus <= r.commonFivePlus
            && r.rare + r.commonFivePlus <= |HeldTypes(types, order)|
  {
    var held := HeldTypes(types, order);
    var rare, common := RareTypes(types, order), TypesHeldBy(types, order, 5);
    SubsetCardinality(TypesHeldBy(types, order, 10), common);
    assert rare * common == {};
    SubsetCardinality(rare + common, held);
  }

  /** Taking `t` out of the set still to visit adds it to the part of `s` visited. */
  lemma VisitedStep<T>(s: set<T>, rest: set<T>, t: T)
    requires t in rest
    ensures |s - (rest - {t})| == |s - rest| + (if t in s then 1 else 0)
  {
    if t in s {
      assert s - (rest - {t}) == (s - rest) + {t};
    } else {
      assert s - (rest - {t}) == s - rest;
    }
  }
}
