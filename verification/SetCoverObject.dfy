// The T03 analyzer as the object it is
// (src/claude-code-analyzer/tasks/T03_minimal_set_cover/set_cover_analyzer.py):
// `MinimalSessionCoverAnalyzer` fills its session index file by file, then
// picks sessions greedily and reports what each picked session adds. Each
// method is proved against the functions of SessionCover.

module SessionCoverObject {
  import opened Text
  import opened Ordering
  import opened SessionCover
  import CliFieldTypes

  class MinimalSessionCoverAnalyzer {
    /** The keys of `session_types` in insertion order. */
    var order: seq<string>
    var sessionTypes: map<string, set<string>>
    var typeSessions: map<string, set<string>>
    var allTypes: set<string>

    ghost function Index(): CoverIndex
      reads this
    {
      CoverIndex(order, sessionTypes, typeSessions, allTypes)
    }

    ghost predicate Valid()
      reads this
    {
      IndexOk(Index())
    }

    constructor ()
      ensures Index() == EmptyIndex && Valid() && Exact(Index())
    {
      order := [];
      sessionTypes := map[];
      typeSessions := map[];
      allTypes := {};
      EmptyIndexOk();
    }

    /** Adds the session to the inverse index entry of each of its types. */
    method IndexSession(sid: string, ts: set<string>)
      modifies this
      ensures typeSessions == WithSession(old(typeSessions), ts, sid)
      ensures order == old(order) && sessionTypes == old(sessionTypes) && allTypes == old(allTypes)
    {
      ghost var start := typeSessions;
      var rest := ts;
      WithNoSession(start, sid);
      assert ts - rest == {};
      while rest != {}
        invariant rest <= ts
        invariant typeSessions == WithSession(start, ts - rest, sid)
        invariant order == old(order) && sessionTypes == old(sessionTypes) && allTypes == old(allTypes)
        decreases rest
      {
        var t :| t in rest;
        WithSessionStep(start, ts - rest, sid, t);
        assert t !in ts - rest && typeSessions == WithSession(start, ts - rest, sid);
        assert (if t in typeSessions then typeSessions[t] else {}) == (if t in start then start[t] else {});
        var entry := if t in typeSessions then typeSessions[t] else {};
        typeSessions := typeSessions[t := entry + {sid}];
        assert ts - (rest - {t}) == (ts - rest) + {t};
        rest := rest - {t};
      }
    }

    /** One session file of `analyze_session_types`: its id and the signatures found in it. */
    method RecordSession(f: SessionFile)
      modifies this
      ensures Index() == Recorded(old(Index()), f)
    {
      if f.types != {} {
        if f.sessionId !in sessionTypes {
          order := order + [f.sessionId];
        }
        sessionTypes := sessionTypes[f.sessionId := f.types];
        allTypes := allTypes + f.types;
        IndexSession(f.sessionId, f.types);
      }
    }

    /**
     * `analyze_session_types` over the session files already scanned. The
     * closing average divides by the number of recorded sessions, so at
     * least one must be recorded.
     */
    method AnalyzeSessionTypes(files: seq<SessionFile>, maxSessions: int)
      requires Valid()
      requires RecordedAll(Index(), Limited(files, maxSessions)).sessionTypes != map[]
      modifies this
      ensures Valid()
      ensures Index() == RecordedAll(old(Index()), Limited(files, maxSessions))
      ensures old(Exact(Index())) && FreshIds(old(Index()), Limited(files, maxSessions)) ==> Exact(Index())
    {
      var chosen := Limited(files, maxSessions);
      ghost var start := Index();
      for i := 0 to |chosen|
        invariant Index() == RecordedAll(start, chosen[..i])
      {
        RecordSession(chosen[i]);
        assert chosen[..i + 1][..i] == chosen[..i];
      }
      assert chosen[..|chosen|] == chosen;
      RecordedAllOk(start, chosen);
      if Exact(start) && FreshIds(start, chosen) {
        RecordedAllExact(start, chosen);
      }
    }

    /**
     * One round of `greedy_set_cover`: scan the sessions in insertion order
     * and keep the first that covers strictly more uncovered types than the
     * best so far.
     */
    method FindBest(uncovered: set<string>, selected: seq<string>) returns (best: CliFieldTypes.Option<string>, bestNew: set<string>)
      requires Distinct(order) && forall s :: s in order ==> s in sessionTypes
      ensures best.Some? ==> BestChoice(order, sessionTypes, selected, uncovered, best.value)
                             && bestNew == sessionTypes[best.value] * uncovered
      ensures best.None? ==> NothingGains(order, sessionTypes, selected, uncovered)
    {
      var sessions, types := order, sessionTypes;
      best := CliFieldTypes.None;
      bestNew := {};
      var bestCoverage := 0;
      ghost var bestAt := 0;
      for i := 0 to |sessions|
        invariant best.None? ==> bestCoverage == 0 && NoGainPrefix(sessions, types, selected, uncovered, i)
        invariant best.Some? ==> LeadsPrefix(sessions, types, selected, uncovered, i, bestAt) && sessions[bestAt] == best.value
        invariant best.Some? ==> bestCoverage == Gain(types, best.value, uncovered) && bestNew == types[best.value] * uncovered
      {
        var sid := sessions[i];
        if sid in selected {
          if best.Some? {
            LeadsExtend(sessions, types, selected, uncovered, i, bestAt);
          } else {
            NoGainExtend(sessions, types, selected, uncovered, i);
          }
        } else {
          var newTypes := types[sid] * uncovered;
          var coverage := |newTypes|;
          if coverage > bestCoverage {
            if best.Some? {
              PrefixBound(sessions, types, selected, uncovered, i, bestAt);
            }
            LeadsTake(sessions, types, selected, uncovered, i, bestCoverage);
            bestCoverage := coverage;
            best := CliFieldTypes.Some(sid);
            bestNew := newTypes;
            bestAt := i;
          } else if best.Some? {
            LeadsExtend(sessions, types, selected, uncovered, i, bestAt);
          } else {
            NoGainExtend(sessions, types, selected, uncovered, i);
          }
        }
      }
      if best.Some? {
        LeaderIsBest(sessions, types, selected, uncovered, bestAt);
      }
    }

    /**
     * `greedy_set_cover`. The closing coverage figure divides by the number
     * of types, so there must be at least one.
     */
    method GreedySetCover() returns (selected: seq<string>)
      requires OrderOk(Index()) && allTypes != {}
      ensures GreedyRun(order, sessionTypes, allTypes, selected)
      ensures allTypes <= Union(sessionTypes, selected)
              || NothingGains(order, sessionTypes, selected, allTypes - Union(sessionTypes, selected))
      ensures allTypes <= Union(sessionTypes, order) ==> allTypes <= Union(sessionTypes, selected)
    {
      var uncovered := allTypes;
      selected := [];
      while uncovered != {}
        invariant GreedyRun(order, sessionTypes, allTypes, selected)
        invariant uncovered == allTypes - Union(sessionTypes, selected)
        decreases |uncovered|
      {
        var best, bestNew := FindBest(uncovered, selected);
        if best.None? {
          break;
        }
        CoverStep(sessionTypes, allTypes, selected, best.value);
        GreedyRunSnoc(order, sessionTypes, allTypes, selected, best.value);
        selected := selected + [best.value];
        uncovered := uncovered - bestNew;
      }
      if allTypes <= Union(sessionTypes, order) && !(allTypes <= Union(sessionTypes, selected)) {
        FullCover(order, sessionTypes, allTypes, selected);
      }
    }

    /**
     * The type frequencies of `analyze_coverage_efficiency`: a `Counter` of
     * the sessions holding each type, then the types held by one session,
     * by five or more and by ten or more.
     */
    method TypeFrequencies() returns (report: FrequencyReport)
      requires Valid()
      ensures report == FrequencyAnalysis(sessionTypes, order)
    {
      var frequencies := CountFrequencies(sessionTypes, order);
      report := TallyFrequencies(frequencies, sessionTypes, order);
    }

    /**
     * The per-session figures of `analyze_coverage_efficiency`. Every selected
     * session must be recorded, and the ratios it reports divide by the
     * number of sessions and of types.
     */
    method CoverageDetails(selected: seq<string>) returns (details: seq<SessionDetail>, coveredTypes: nat)
      requires forall s :: s in selected ==> s in sessionTypes
      requires sessionTypes != map[] && allTypes != {}
      ensures DetailsOf(sessionTypes, selected, details)
      ensures coveredTypes == |Union(sessionTypes, selected)|
    {
      var covered: set<string> := {};
      details := [];
      for i := 0 to |selected|
        invariant covered == Union(sessionTypes, selected[..i])
        invariant |details| == i
        invariant forall k :: 0 <= k < i ==> details[k] == DetailAt(sessionTypes, selected, k)
      {
        var types := sessionTypes[selected[i]];
        var newTypes := types - covered;
        UnionSnoc(sessionTypes, selected, i);
        covered := covered + types;
        var detail := SessionDetail(i + 1, selected[i], |types|, |newTypes|, |covered|);
        assert detail == DetailAt(sessionTypes, selected, i);
        details := details + [detail];
      }
      assert selected[..|selected|] == selected;
      coveredTypes := |covered|;
    }
  }

  /** `type_frequencies[type_sig] += 1` for each type of one session. */
  method CountSessionTypes(frequencies: map<string, nat>, ts: set<string>) returns (r: map<string, nat>)
    ensures r == CountedOnce(frequencies, ts)
  {
    r := frequencies;
    var rest := ts;
    CountedNothing(frequencies);
    assert ts - rest == {};
    while rest != {}
      invariant rest <= ts
      invariant r == CountedOnce(frequencies, ts - rest)
      decreases rest
    {
      var t :| t in rest;
      CountedStep(frequencies, ts - rest, t);
      assert Tallied(r, t) == Tallied(frequencies, t);
      r := r[t := Tallied(r, t) + 1];
      assert ts - (rest - {t}) == (ts - rest) + {t};
      rest := rest - {t};
    }
  }

  /** The `Counter` loop over the recorded sessions' type sets. */
  method CountFrequencies(types: map<string, set<string>>, order: seq<string>) returns (frequencies: map<string, nat>)
    requires forall s :: s in order ==> s in types
    ensures frequencies.Keys == HeldTypes(types, order)
    ensures forall t :: Tallied(frequencies, t) == Frequency(types, order, t)
  {
    frequencies := map[];
    for i := 0 to |order|
      invariant frequencies.Keys == HeldTypes(types, order[..i])
      invariant forall t :: Tallied(frequencies, t) == Frequency(types, order[..i], t)
    {
      FrequencySnoc(types, order, i);
      frequencies := CountSessionTypes(frequencies, types[order[i]]);
    }
    assert order[..|order|] == order;
  }

  /** The three sums over the counter's values. */
  method TallyFrequencies(frequencies: map<string, nat>, ghost types: map<string, set<string>>, ghost order: seq<string>)
    returns (report: FrequencyReport)
    requires frequencies.Keys == HeldTypes(types, order)
    requires forall t :: Tallied(frequencies, t) == Frequency(types, order, t)
    ensures report == FrequencyAnalysis(types, order)
  {
    var rare, common, veryCommon := 0, 0, 0;
    var rest := frequencies.Keys;
    ghost var rareTypes := RareTypes(types, order);
    ghost var commonTypes := TypesHeldBy(types, order, 5);
    ghost var veryCommonTypes := TypesHeldBy(types, order, 10);
    while rest != {}
      invariant rest <= frequencies.Keys
      invariant rare == |rareTypes - rest|
      invariant common == |commonTypes - rest|
      invariant veryCommon == |veryCommonTypes - rest|
      decreases rest
    {
      var t :| t in rest;
      var count := frequencies[t];
      assert count == Frequency(types, order, t) by {
        assert Tallied(frequencies, t) == count;
      }
      VisitedStep(rareTypes, rest, t);
      VisitedStep(commonTypes, rest, t);
      VisitedStep(veryCommonTypes, rest, t);
      if count == 1 {
        rare := rare + 1;
      }
      if count >= 5 {
        common := common + 1;
      }
      if count >= 10 {
        veryCommon := veryCommon + 1;
      }
      rest := rest - {t};
    }
    report := FrequencyReport(rare, common, veryCommon);
  }
}
