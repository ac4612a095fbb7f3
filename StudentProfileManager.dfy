/** Student profiles kept in a key-value store: created on first access,
    updated from the traces the assessment processor produces (interaction
    log, per-component knowledge state with its history, derived metrics),
    and read back as a knowledge-state view and as prioritised learning
    recommendations. */
module StudentProfiles {
  import opened Wrappers
  import opened Text
  import opened OrderedDict
  import opened StableSort
  import opened AssessmentTypes

  // ---------------------------------------------------------------------
  // Profile records
  // ---------------------------------------------------------------------

  /** One entry of a component's `history`. */
  datatype HistoryEntry = HistoryEntry(timestamp: string, value: real, confidence: real, isCorrect: bool)

  /** The stored state of one knowledge component. */
  datatype KcState = KcState(
    initialValue: real,
    currentValue: real,
    confidence: real,
    lastUpdated: string,
    history: seq<HistoryEntry>)

  /** component id -> state, in insertion order */
  type KnowledgeState = seq<(string, KcState)>

  /** An entry of `strengths` or `areas_for_improvement`. */
  datatype MetricItem = MetricItem(componentId: string, componentName: string, mastery: real)

  datatype Metrics = Metrics(overallMastery: real, strengths: seq<MetricItem>, areasForImprovement: seq<MetricItem>)

  datatype Profile = Profile(
    studentId: string,
    creationDate: string,
    lastUpdated: string,
    name: string,
    gradeLevel: string,
    interactionHistory: seq<Interaction>,
    knowledgeState: KnowledgeState,
    metrics: Metrics)

  datatype Recommendation = Recommendation(
    componentId: string,
    componentName: string,
    mastery: real,
    priority: string,
    text: string)

  /** The store key of a student's profile. */
  function ProfileKey(studentId: string): string {
    "student_profile_" + studentId
  }

  /** The profile created for an unknown student at time `now`. */
  function DefaultProfile(studentId: string, now: string): Profile {
    Profile(studentId, now, now, "Student " + studentId, "Unknown", [], [], Metrics(0.0, [], []))
  }

  /** What `get_student_profile` returns for a store. */
  function StoredOrDefault(store: map<string, Profile>, studentId: string, now: string): Profile {
    var key := ProfileKey(studentId);
    if key in store then store[key] else DefaultProfile(studentId, now)
  }

  /** A new profile is empty, and its metrics are exactly what the metric
      computation gives for its empty knowledge state. */
  lemma DefaultProfileConsistent(studentId: string, now: string)
    ensures var p := DefaultProfile(studentId, now);
      && p.studentId == studentId
      && p.interactionHistory == []
      && p.knowledgeState == []
      && p.metrics == MetricsOf(p.knowledgeState)
      && p.metrics.overallMastery == 0.0
  {
  }

  // ---------------------------------------------------------------------
  // Applying a trace
  // ---------------------------------------------------------------------

  /** The history entry recorded for one update. */
  function EntryFor(i: Interaction, u: KnowledgeUpdate): HistoryEntry {
    HistoryEntry(i.timestamp, u.newValue, u.confidence, i.isCorrect)
  }

  /** The state of a component after one update: created with the new value
      as both initial and current value, or with only the current value,
      confidence and time overwritten; either way one history entry longer. */
  function StateAfter(previous: Option<KcState>, u: KnowledgeUpdate, i: Interaction): (s: KcState)
    ensures s.currentValue == u.newValue && s.confidence == u.confidence && s.lastUpdated == i.timestamp
    ensures previous.Some? ==> s.initialValue == previous.value.initialValue
    ensures previous.None? ==> s.initialValue == u.newValue
    ensures s.history == (if previous.Some? then previous.value.history else []) + [EntryFor(i, u)]
  {
    match previous
    case None => KcState(u.newValue, u.newValue, u.confidence, i.timestamp, [EntryFor(i, u)])
    case Some(s0) =>
      s0.(currentValue := u.newValue, confidence := u.confidence, lastUpdated := i.timestamp,
           history := s0.history + [EntryFor(i, u)])
  }

  /** One pass of the update loop. */
  function ApplyUpdate(ks: KnowledgeState, id: string, u: KnowledgeUpdate, i: Interaction): KnowledgeState {
    Put(ks, id, StateAfter(Lookup(ks, id), u, i))
  }

  /** The loop body first creates or overwrites the entry, then appends to
      its history; together that is one `ApplyUpdate`. */
  lemma UpdateStep(ks: KnowledgeState, id: string, u: KnowledgeUpdate, i: Interaction, state: KcState)
    requires state == if id !in Keys(ks) then KcState(u.newValue, u.newValue, u.confidence, i.timestamp, [])
                      else Get(ks, id).(currentValue := u.newValue, confidence := u.confidence, lastUpdated := i.timestamp)
    ensures var created := Put(ks, id, state);
      Put(created, id, Get(created, id).(history := Get(created, id).history + [EntryFor(i, u)])) == ApplyUpdate(ks, id, u, i)
  {
    var created := Put(ks, id, state);
    var full := state.(history := state.history + [EntryFor(i, u)]);
    assert Get(created, id) == state;
    assert full == StateAfter(Lookup(ks, id), u, i);
    PutTwice(ks, id, state, full);
  }

  /** The whole update loop, in the order of the trace's updates. */
  function ApplyUpdates(ks: KnowledgeState, updates: seq<(string, KnowledgeUpdate)>, i: Interaction): KnowledgeState {
    if updates == [] then ks
    else
      var last := updates[|updates| - 1];
      ApplyUpdate(ApplyUpdates(ks, updates[..|updates| - 1], i), last.0, last.1, i)
  }

  /** The body of the update loop for one component. */
  method UpdateComponent(knowledgeState: KnowledgeState, id: string, u: KnowledgeUpdate, interaction: Interaction)
    returns (ks: KnowledgeState)
    ensures ks == ApplyUpdate(knowledgeState, id, u, interaction)
  {
    var state: KcState;
    if id !in Keys(knowledgeState) {
      state := KcState(u.newValue, u.newValue, u.confidence, interaction.timestamp, []);
    } else {
      var current := Get(knowledgeState, id);
      state := current.(currentValue := u.newValue, confidence := u.confidence, lastUpdated := interaction.timestamp);
    }
    ks := Put(knowledgeState, id, state);
    var entry := HistoryEntry(interaction.timestamp, u.newValue, u.confidence, interaction.isCorrect);
    var stored := Get(ks, id);
    ks := Put(ks, id, stored.(history := stored.history + [entry]));
    UpdateStep(knowledgeState, id, u, interaction, state);
  }

  /** One more update extends the fold by one `ApplyUpdate`. */
  lemma ApplyUpdatesStep(ks: KnowledgeState, updates: seq<(string, KnowledgeUpdate)>, i: Interaction, j: nat)
    requires j < |updates|
    ensures ApplyUpdates(ks, updates[..j + 1], i) == ApplyUpdate(ApplyUpdates(ks, updates[..j], i), updates[j].0, updates[j].1, i)
  {
    assert updates[..j + 1][..j] == updates[..j];
  }

  /** The loop of `update_profile_with_trace` over the trace's updates. */
  method UpdateKnowledgeState(knowledgeState: KnowledgeState, updates: seq<(string, KnowledgeUpdate)>, interaction: Interaction)
    returns (ks: KnowledgeState)
    ensures ks == ApplyUpdates(knowledgeState, updates, interaction)
  {
    ks := knowledgeState;
    var j := 0;
    while j < |updates|
      invariant 0 <= j <= |updates|
      invariant ks == ApplyUpdates(knowledgeState, updates[..j], interaction)
    {
      ApplyUpdatesStep(knowledgeState, updates, interaction, j);
      ks := UpdateComponent(ks, updates[j].0, updates[j].1, interaction);
      j := j + 1;
    }
    assert updates[..|updates|] == updates;
  }

  /** The profile `update_profile_with_trace` produces from `p`. */
  function ApplyTrace(p: Profile, trace: Trace, now: string): Profile {
    if trace.TraceError? || trace.interaction.None? then p
    else
      var i := trace.interaction.value;
      var ks := ApplyUpdates(p.knowledgeState, trace.knowledgeUpdates, i);
      p.(interactionHistory := p.interactionHistory + [i], knowledgeState := ks, metrics := MetricsOf(ks), lastUpdated := now)
  }

  /** One update keeps the ids in place and appends a new one at the end. */
  lemma ApplyUpdateKeys(ks: KnowledgeState, id: string, u: KnowledgeUpdate, i: Interaction)
    ensures Keys(ApplyUpdate(ks, id, u, i)) == if id in Keys(ks) then Keys(ks) else Keys(ks) + [id]
    ensures DistinctKeys(ks) ==> DistinctKeys(ApplyUpdate(ks, id, u, i))
  {
    if DistinctKeys(ks) {
      PutDistinct(ks, id, StateAfter(Lookup(ks, id), u, i));
    }
  }

  /** One update changes the entry of its own component and no other. */
  lemma ApplyUpdateLookup(ks: KnowledgeState, id: string, u: KnowledgeUpdate, i: Interaction, other: string)
    ensures Lookup(ApplyUpdate(ks, id, u, i), other) ==
      if other == id then Some(StateAfter(Lookup(ks, id), u, i)) else Lookup(ks, other)
  {
    LookupPut(ks, id, StateAfter(Lookup(ks, id), u, i), other);
  }

  /** The update loop never removes or reorders components: the old ids
      stay a prefix of the ids, followed by the new ids ... */
  lemma {:induction false} ApplyUpdatesKeys(ks: KnowledgeState, updates: seq<(string, KnowledgeUpdate)>, i: Interaction)
    ensures Keys(ks) <= Keys(ApplyUpdates(ks, updates, i))
    ensures forall id :: id in Keys(ApplyUpdates(ks, updates, i)) <==> id in Keys(ks) || id in Keys(updates)
    decreases |updates|
  {
    if updates != [] {
      var init, last := updates[..|updates| - 1], updates[|updates| - 1];
      ApplyUpdatesKeys(ks, init, i);
      var front := ApplyUpdates(ks, init, i);
      ApplyUpdateKeys(front, last.0, last.1, i);
      KeysSnoc(updates);
    }
  }

  /** ... and keeps them distinct. */
  lemma {:induction false} ApplyUpdatesDistinct(ks: KnowledgeState, updates: seq<(string, KnowledgeUpdate)>, i: Interaction)
    requires DistinctKeys(ks)
    ensures DistinctKeys(ApplyUpdates(ks, updates, i))
    decreases |updates|
  {
    if updates != [] {
      var init, last := updates[..|updates| - 1], updates[|updates| - 1];
      ApplyUpdatesDistinct(ks, init, i);
      ApplyUpdateKeys(ApplyUpdates(ks, init, i), last.0, last.1, i);
    }
  }

  /** A component without an update keeps its state. */
  lemma {:induction false} ApplyUpdatesUntouched(ks: KnowledgeState, updates: seq<(string, KnowledgeUpdate)>, i: Interaction, id: string)
    requires id !in Keys(updates)
    ensures Lookup(ApplyUpdates(ks, updates, i), id) == Lookup(ks, id)
    decreases |updates|
  {
    if updates != [] {
      var init := updates[..|updates| - 1];
      var last := updates[|updates| - 1];
      KeysSnoc(updates);
      ApplyUpdatesUntouched(ks, init, i, id);
      ApplyUpdateLookup(ApplyUpdates(ks, init, i), last.0, last.1, i, id);
    }
  }

  /** A component updated exactly once (as every component of a trace,
      whose ids are distinct) ends in the state one update gives from its
      state before the trace. */
  lemma {:induction false} ApplyUpdatesTouched(ks: KnowledgeState, updates: seq<(string, KnowledgeUpdate)>, i: Interaction, j: int)
    requires 0 <= j < |updates|
    requires forall m :: 0 <= m < |updates| && m != j ==> updates[m].0 != updates[j].0
    ensures Lookup(ApplyUpdates(ks, updates, i), updates[j].0) == Some(StateAfter(Lookup(ks, updates[j].0), updates[j].1, i))
    decreases |updates|
  {
    var init := updates[..|updates| - 1];
    var last := updates[|updates| - 1];
    var front := ApplyUpdates(ks, init, i);
    var id := updates[j].0;
    ApplyUpdateLookup(front, last.0, last.1, i, id);
    if j == |updates| - 1 {
      forall m | 0 <= m < |init| ensures Keys(init)[m] != id {
        assert Keys(init)[m] == updates[m].0;
      }
      ApplyUpdatesUntouched(ks, init, i, id);
    } else {
      assert updates[j] == init[j];
      assert last.0 != id;
      ApplyUpdatesTouched(ks, init, i, j);
    }
  }


  /** `update_profile_with_trace` leaves the profile as it is when the trace
      is an error or carries no interaction. */
  lemma ApplyTraceIgnoresFailures(p: Profile, trace: Trace, now: string)
    requires trace.TraceError? || trace.interaction.None?
    ensures ApplyTrace(p, trace, now) == p
  {
  }

  /** A successful update appends exactly the interaction to the log, keeps
      every component (in order) and adds those of the trace, updates each
      component of the trace by one step (its initial value kept once set,
      its history one entry longer), leaves the others alone, and stores the
      metrics of the new knowledge state. */
  lemma ApplyTraceSuccess(p: Profile, trace: Trace, now: string)
    requires trace.Trace? && trace.interaction.Some?
    requires DistinctKeys(trace.knowledgeUpdates)
    ensures var r := ApplyTrace(p, trace, now);
      var i := trace.interaction.value;
      && r.studentId == p.studentId && r.creationDate == p.creationDate && r.name == p.name
      && r.gradeLevel == p.gradeLevel
      && r.interactionHistory == p.interactionHistory + [i]
      && r.lastUpdated == now
      && Keys(p.knowledgeState) <= Keys(r.knowledgeState)
      && (forall id :: id in Keys(r.knowledgeState) <==> id in Keys(p.knowledgeState) || id in Keys(trace.knowledgeUpdates))
      && (forall id :: id !in Keys(trace.knowledgeUpdates) ==> Lookup(r.knowledgeState, id) == Lookup(p.knowledgeState, id))
      && (forall j :: 0 <= j < |trace.knowledgeUpdates| ==>
            var id := trace.knowledgeUpdates[j].0;
            var u := trace.knowledgeUpdates[j].1;
            Lookup(r.knowledgeState, id) == Some(StateAfter(Lookup(p.knowledgeState, id), u, i)))
      && r.metrics == MetricsOf(r.knowledgeState)
  {
    var i := trace.interaction.value;
    ApplyUpdatesKeys(p.knowledgeState, trace.knowledgeUpdates, i);
    forall id | id !in Keys(trace.knowledgeUpdates)
      ensures Lookup(ApplyUpdates(p.knowledgeState, trace.knowledgeUpdates, i), id) == Lookup(p.knowledgeState, id)
    {
      ApplyUpdatesUntouched(p.knowledgeState, trace.knowledgeUpdates, i, id);
    }
    forall j | 0 <= j < |trace.knowledgeUpdates|
      ensures Lookup(ApplyUpdates(p.knowledgeState, trace.knowledgeUpdates, i), trace.knowledgeUpdates[j].0) ==
        Some(StateAfter(Lookup(p.knowledgeState, trace.knowledgeUpdates[j].0), trace.knowledgeUpdates[j].1, i))
    {
      ApplyUpdatesTouched(p.knowledgeState, trace.knowledgeUpdates, i, j);
    }
  }

  // ---------------------------------------------------------------------
  // Metrics
  // ---------------------------------------------------------------------

  /** The metric entry of a component. */
  function ItemOf(entry: (string, KcState)): MetricItem {
    MetricItem(entry.0, ComponentDisplayName(entry.0), entry.1.currentValue)
  }

  predicate IsStrength(mastery: real) { mastery >= 0.8 }

  predicate NeedsImprovement(mastery: real) { mastery < 0.6 }

  /** The entries of the components whose mastery passes `keep`, in
      knowledge-state order. */
  function ItemsWhere(ks: KnowledgeState, keep: real -> bool): seq<MetricItem> {
    if ks == [] then []
    else
      var last := ks[|ks| - 1];
      ItemsWhere(ks[..|ks| - 1], keep) + (if keep(last.1.currentValue) then [ItemOf(last)] else [])
  }

  function MasterySum(ks: KnowledgeState): real {
    if ks == [] then 0.0 else MasterySum(ks[..|ks| - 1]) + ks[|ks| - 1].1.currentValue
  }

  function Mastery(m: MetricItem): real { m.mastery }

  function NegatedMastery(m: MetricItem): real { -m.mastery }

  /** What `_calculate_metrics` returns for a knowledge state: zeros and
      empty lists for an empty state; otherwise the mean mastery, the
      strengths (mastery at least 0.8) highest first and the areas for
      improvement (mastery below 0.6) lowest first, both sorts stable. */
  function MetricsOf(ks: KnowledgeState): Metrics {
    if ks == [] then Metrics(0.0, [], [])
    else
      Metrics(
        MasterySum(ks) / |ks| as real,
        SortBy(ItemsWhere(ks, IsStrength), NegatedMastery),
        SortBy(ItemsWhere(ks, NeedsImprovement), Mastery))
  }

  /** An entry is kept exactly when it is the entry of a component whose
      mastery passes the test. */
  lemma {:induction false} ItemsWhereMembers(ks: KnowledgeState, keep: real -> bool)
    ensures forall x :: x in ItemsWhere(ks, keep) <==>
      exists k :: 0 <= k < |ks| && keep(ks[k].1.currentValue) && x == ItemOf(ks[k])
    decreases |ks|
  {
    if ks != [] {
      var front := ks[..|ks| - 1];
      ItemsWhereMembers(front, keep);
      forall x ensures x in ItemsWhere(ks, keep) <==> exists k :: 0 <= k < |ks| && keep(ks[k].1.currentValue) && x == ItemOf(ks[k]) {
        if x in ItemsWhere(front, keep) {
          var k :| 0 <= k < |front| && keep(front[k].1.currentValue) && x == ItemOf(front[k]);
          assert ks[k] == front[k];
        }
        if exists k :: 0 <= k < |ks| && keep(ks[k].1.currentValue) && x == ItemOf(ks[k]) {
          var k :| 0 <= k < |ks| && keep(ks[k].1.currentValue) && x == ItemOf(ks[k]);
          if k < |front| {
            assert front[k] == ks[k];
          } else {
            assert k == |ks| - 1;
          }
        }
      }
    }
  }

  /** The sum of masteries lies between the count times any lower and upper
      bound of the masteries. */
  lemma {:induction false} MasterySumBounds(ks: KnowledgeState, lo: real, hi: real)
    requires forall k :: 0 <= k < |ks| ==> lo <= ks[k].1.currentValue <= hi
    ensures lo * |ks| as real <= MasterySum(ks) <= hi * |ks| as real
    decreases |ks|
  {
    if ks != [] {
      MasterySumBounds(ks[..|ks| - 1], lo, hi);
    }
  }

  lemma MeanBetween(sum: real, n: real, lo: real, hi: real)
    requires n > 0.0 && lo * n <= sum <= hi * n
    ensures lo <= sum / n <= hi
  {
    assert sum / n * n == sum;
  }

  /** The overall mastery is the mean, so it lies within any bounds of the
      masteries. */
  lemma MetricsMean(ks: KnowledgeState, lo: real, hi: real)
    requires ks != []
    requires forall k :: 0 <= k < |ks| ==> lo <= ks[k].1.currentValue <= hi
    ensures lo <= MetricsOf(ks).overallMastery <= hi
  {
    MasterySumBounds(ks, lo, hi);
    MeanBetween(MasterySum(ks), |ks| as real, lo, hi);
  }

  /** The strengths are exactly the entries of mastery at least 0.8 (a
      permutation of them), highest first, ties in knowledge-state order. */
  lemma MetricsStrengths(ks: KnowledgeState)
    ensures var s := MetricsOf(ks).strengths;
      && (forall x :: x in s <==> exists k :: 0 <= k < |ks| && ks[k].1.currentValue >= 0.8 && x == ItemOf(ks[k]))
      && multiset(s) == multiset(ItemsWhere(ks, IsStrength))
      && (forall a, b :: 0 <= a < b < |s| ==> s[a].mastery >= s[b].mastery)
      && (forall v :: WithKey(s, NegatedMastery, v) == WithKey(ItemsWhere(ks, IsStrength), NegatedMastery, v))
  {
    var strong := ItemsWhere(ks, IsStrength);
    ItemsWhereMembers(ks, IsStrength);
    if ks != [] {
      var s := MetricsOf(ks).strengths;
      assert s == SortBy(strong, NegatedMastery);
      SortBySorted(strong, NegatedMastery);
      assert forall a, b :: 0 <= a < b < |s| ==> s[a].mastery >= s[b].mastery;
      SortByMembers(strong, NegatedMastery);
      forall v ensures WithKey(s, NegatedMastery, v) == WithKey(strong, NegatedMastery, v) {
        SortByStable(strong, NegatedMastery, v);
      }
    }
  }

  /** The areas for improvement are exactly the entries of mastery below 0.6
      (a permutation of them), lowest first, ties in knowledge-state order. */
  lemma MetricsAreas(ks: KnowledgeState)
    ensures var w := MetricsOf(ks).areasForImprovement;
      && (forall x :: x in w <==> exists k :: 0 <= k < |ks| && ks[k].1.currentValue < 0.6 && x == ItemOf(ks[k]))
      && multiset(w) == multiset(ItemsWhere(ks, NeedsImprovement))
      && (forall a, b :: 0 <= a < b < |w| ==> w[a].mastery <= w[b].mastery)
      && (forall v :: WithKey(w, Mastery, v) == WithKey(ItemsWhere(ks, NeedsImprovement), Mastery, v))
  {
    var weak := ItemsWhere(ks, NeedsImprovement);
    ItemsWhereMembers(ks, NeedsImprovement);
    if ks != [] {
      var w := MetricsOf(ks).areasForImprovement;
      assert w == SortBy(weak, Mastery);
      SortBySorted(weak, Mastery);
      assert forall a, b :: 0 <= a < b < |w| ==> w[a].mastery <= w[b].mastery;
      SortByMembers(weak, Mastery);
      forall v ensures WithKey(w, Mastery, v) == WithKey(weak, Mastery, v) {
        SortByStable(weak, Mastery, v);
      }
    }
  }

  /** No entry is both a strength and an area for improvement, and a mastery
      in [0.6, 0.8) puts its component in neither list. */
  lemma MetricsBands(ks: KnowledgeState)
    ensures var m := MetricsOf(ks);
      && (forall x :: !(x in m.strengths && x in m.areasForImprovement))
      && (forall k :: 0 <= k < |ks| && 0.6 <= ks[k].1.currentValue < 0.8 ==>
            ItemOf(ks[k]) !in m.strengths && ItemOf(ks[k]) !in m.areasForImprovement)
  {
    MetricsStrengths(ks);
    MetricsAreas(ks);
    var m := MetricsOf(ks);
    forall x | x in m.strengths ensures x.mastery >= 0.8 {
      var k :| 0 <= k < |ks| && ks[k].1.currentValue >= 0.8 && x == ItemOf(ks[k]);
    }
    forall x | x in m.areasForImprovement ensures x.mastery < 0.6 {
      var k :| 0 <= k < |ks| && ks[k].1.currentValue < 0.6 && x == ItemOf(ks[k]);
    }
  }

  // ---------------------------------------------------------------------
  // Knowledge-state view and recommendations
  // ---------------------------------------------------------------------

  /** The subject filter: none (or an empty one) keeps every component;
      otherwise the lower-cased subject must occur in the lower-cased id. */
  predicate MatchesSubject(subject: Option<string>, id: string) {
    subject.None? || subject.value == "" || Contains(Lower(id), Lower(subject.value))
  }

  /** What `get_student_knowledge_state` returns for a knowledge state:
      id -> current value for the components passing the filter. */
  function KnowledgeStateView(ks: KnowledgeState, subject: Option<string>): seq<(string, real)> {
    if ks == [] then []
    else
      var last := ks[|ks| - 1];
      var front := KnowledgeStateView(ks[..|ks| - 1], subject);
      if MatchesSubject(subject, last.0) then Put(front, last.0, last.1.currentValue) else front
  }

  /** Get on a prefix agrees with Get on the whole when the key is in the
      prefix. */
  lemma GetPrefix<V>(d: seq<(string, V)>, n: nat, k: string)
    requires n <= |d| && k in Keys(d[..n])
    ensures k in Keys(d) && Get(d, k) == Get(d[..n], k)
  {
    var i := Find(d[..n], k);
    assert d[..n][i] == d[i];
    assert Keys(d)[i] == k;
    FindAt(d, k, i);
  }

  /** The view holds exactly the components passing the subject filter,
      each once. */
  lemma {:induction false} KnowledgeStateViewKeys(ks: KnowledgeState, subject: Option<string>)
    ensures DistinctKeys(KnowledgeStateView(ks, subject))
    ensures forall id :: id in Keys(KnowledgeStateView(ks, subject)) <==> id in Keys(ks) && MatchesSubject(subject, id)
    decreases |ks|
  {
    if ks != [] {
      var front, last := ks[..|ks| - 1], ks[|ks| - 1];
      KnowledgeStateViewKeys(front, subject);
      KeysSnoc(ks);
      if MatchesSubject(subject, last.0) {
        PutDistinct(KnowledgeStateView(front, subject), last.0, last.1.currentValue);
      }
    }
  }

  /** Each viewed component maps to its current value. */
  lemma {:induction false} KnowledgeStateViewAt(ks: KnowledgeState, subject: Option<string>, k: nat)
    requires k < |ks| && MatchesSubject(subject, ks[k].0)
    requires forall j :: k < j < |ks| ==> ks[j].0 != ks[k].0
    ensures Lookup(KnowledgeStateView(ks, subject), ks[k].0) == Some(ks[k].1.currentValue)
    decreases |ks|
  {
    var front := ks[..|ks| - 1];
    if k < |front| {
      assert front[k] == ks[k];
      forall j | k < j < |front| ensures front[j].0 != front[k].0 {
        assert front[j] == ks[j];
      }
      KnowledgeStateViewAt(front, subject, k);
      KnowledgeStateViewOther(ks, subject, ks[k].0);
    } else {
      assert k == |ks| - 1;
      KnowledgeStateViewLast(ks, subject);
    }
  }

  /** The last component, when it matches, reads its own value in the view. */
  lemma KnowledgeStateViewLast(ks: KnowledgeState, subject: Option<string>)
    requires ks != [] && MatchesSubject(subject, ks[|ks| - 1].0)
    ensures Lookup(KnowledgeStateView(ks, subject), ks[|ks| - 1].0) == Some(ks[|ks| - 1].1.currentValue)
  {
    var last := ks[|ks| - 1];
    var before := KnowledgeStateView(ks[..|ks| - 1], subject);
    assert KnowledgeStateView(ks, subject) == Put(before, last.0, last.1.currentValue);
    LookupPut(before, last.0, last.1.currentValue, last.0);
  }

  /** Any other id reads in the view as it did before the last component. */
  lemma KnowledgeStateViewOther(ks: KnowledgeState, subject: Option<string>, id: string)
    requires ks != [] && id != ks[|ks| - 1].0
    ensures Lookup(KnowledgeStateView(ks, subject), id) == Lookup(KnowledgeStateView(ks[..|ks| - 1], subject), id)
  {
    var last := ks[|ks| - 1];
    LookupPut(KnowledgeStateView(ks[..|ks| - 1], subject), last.0, last.1.currentValue, id);
  }

  lemma KnowledgeStateViewValues(ks: KnowledgeState, subject: Option<string>)
    requires DistinctKeys(ks)
    ensures forall id :: id in Keys(KnowledgeStateView(ks, subject)) ==>
      id in Keys(ks) && Get(KnowledgeStateView(ks, subject), id) == Get(ks, id).currentValue
  {
    KnowledgeStateViewKeys(ks, subject);
    forall id | id in Keys(KnowledgeStateView(ks, subject))
      ensures id in Keys(ks) && Get(KnowledgeStateView(ks, subject), id) == Get(ks, id).currentValue
    {
      var k := Find(ks, id);
      KnowledgeStateViewAt(ks, subject, k);
    }
  }

  /** The priority bucket of a mastery below the 0.8 threshold. */
  function PriorityOf(mastery: real): string {
    if mastery < 0.4 then "high" else if mastery < 0.6 then "medium" else "low"
  }

  /** `priority_order.get(priority, 3)` */
  function PriorityRank(priority: string): real {
    if priority == "high" then 0.0
    else if priority == "medium" then 1.0
    else if priority == "low" then 2.0
    else 3.0
  }

  function RankOf(r: Recommendation): real { PriorityRank(r.priority) }

  function RecommendationFor(id: string, mastery: real): Recommendation {
    var name := ComponentDisplayName(id);
    Recommendation(id, name, mastery, PriorityOf(mastery), "Focus on " + name + " to improve mastery")
  }

  /** The recommendations before sorting: one per viewed component below 0.8,
      in view order. */
  function Candidates(view: seq<(string, real)>): seq<Recommendation> {
    if view == [] then []
    else
      var last := view[|view| - 1];
      Candidates(view[..|view| - 1]) + (if last.1 >= 0.8 then [] else [RecommendationFor(last.0, last.1)])
  }

  /** What `get_learning_recommendations` returns for a view. */
  function RecommendationsOf(view: seq<(string, real)>): seq<Recommendation> {
    SortBy(Candidates(view), RankOf)
  }

  lemma {:induction false} CandidatesMembers(view: seq<(string, real)>)
    ensures forall r :: r in Candidates(view) <==>
      exists k :: 0 <= k < |view| && view[k].1 < 0.8 && r == RecommendationFor(view[k].0, view[k].1)
    decreases |view|
  {
    if view != [] {
      var front, last := view[..|view| - 1], view[|view| - 1];
      CandidatesMembers(front);
      assert Candidates(view) == Candidates(front) + (if last.1 >= 0.8 then [] else [RecommendationFor(last.0, last.1)]);
      forall r ensures r in Candidates(view) <==> exists k :: 0 <= k < |view| && view[k].1 < 0.8 && r == RecommendationFor(view[k].0, view[k].1) {
        if r in Candidates(front) {
          var k :| 0 <= k < |front| && front[k].1 < 0.8 && r == RecommendationFor(front[k].0, front[k].1);
          assert view[k] == front[k];
        }
        if exists k :: 0 <= k < |view| && view[k].1 < 0.8 && r == RecommendationFor(view[k].0, view[k].1) {
          var k :| 0 <= k < |view| && view[k].1 < 0.8 && r == RecommendationFor(view[k].0, view[k].1);
          if k < |front| {
            assert front[k] == view[k];
          } else {
            assert k == |view| - 1;
          }
        }
      }
    }
  }

  /** The recommendations: exactly one per viewed component with mastery
      below 0.8 (a permutation of the candidates); priority "high" below
      0.4, "medium" below 0.6, "low" otherwise; ordered high, medium, low,
      and within one priority in view order. */
  lemma RecommendationsSpec(view: seq<(string, real)>)
    ensures var r := RecommendationsOf(view);
      && multiset(r) == multiset(Candidates(view))
      && (forall x :: x in r <==> exists k :: 0 <= k < |view| && view[k].1 < 0.8 && x == RecommendationFor(view[k].0, view[k].1))
      && (forall x :: x in r ==> x.mastery < 0.8)
      && (forall x :: x in r ==> (x.priority == "high" <==> x.mastery < 0.4))
      && (forall x :: x in r ==> (x.priority == "medium" <==> 0.4 <= x.mastery < 0.6))
      && (forall x :: x in r ==> (x.priority == "low" <==> 0.6 <= x.mastery))
      && (forall a, b :: 0 <= a < b < |r| ==> RankOf(r[a]) <= RankOf(r[b]))
      && (forall v :: WithKey(r, RankOf, v) == WithKey(Candidates(view), RankOf, v))
  {
    var c := Candidates(view);
    var r := RecommendationsOf(view);
    CandidatesMembers(view);
    SortBySorted(c, RankOf);
    forall x ensures x in r <==> x in c {
      assert x in r <==> x in multiset(r);
    }
    forall v ensures WithKey(r, RankOf, v) == WithKey(c, RankOf, v) {
      SortByStable(c, RankOf, v);
    }
  }

  /** One more component extends the view by at most one assignment. */
  lemma KnowledgeStateViewStep(ks: KnowledgeState, subject: Option<string>, j: nat)
    requires j < |ks|
    ensures KnowledgeStateView(ks[..j + 1], subject) ==
      if MatchesSubject(subject, ks[j].0) then Put(KnowledgeStateView(ks[..j], subject), ks[j].0, ks[j].1.currentValue)
      else KnowledgeStateView(ks[..j], subject)
  {
    assert ks[..j + 1][..j] == ks[..j];
  }

  /** The loop of `get_student_knowledge_state` over the components. */
  method FilterKnowledgeState(ks: KnowledgeState, subject: Option<string>) returns (view: seq<(string, real)>)
    ensures view == KnowledgeStateView(ks, subject)
  {
    view := [];
    var j := 0;
    while j < |ks|
      invariant 0 <= j <= |ks|
      invariant view == KnowledgeStateView(ks[..j], subject)
    {
      KnowledgeStateViewStep(ks, subject, j);
      var id, state := ks[j].0, ks[j].1;
      if MatchesSubject(subject, id) {
        view := Put(view, id, state.currentValue);
      }
      j := j + 1;
    }
    assert ks[..|ks|] == ks;
  }

  /** The loop of `get_learning_recommendations` over the view. */
  method CollectCandidates(view: seq<(string, real)>) returns (candidates: seq<Recommendation>)
    ensures candidates == Candidates(view)
  {
    candidates := [];
    var j := 0;
    while j < |view|
      invariant 0 <= j <= |view|
      invariant candidates == Candidates(view[..j])
    {
      assert view[..j + 1][..j] == view[..j];
      var id, mastery := view[j].0, view[j].1;
      if mastery < 0.8 {
        var priority := if mastery < 0.4 then "high" else if mastery < 0.6 then "medium" else "low";
        var name := ComponentDisplayName(id);
        candidates := candidates + [Recommendation(id, name, mastery, priority, "Focus on " + name + " to improve mastery")];
      }
      j := j + 1;
    }
    assert view[..|view|] == view;
  }

  // ---------------------------------------------------------------------
  // The manager
  // ---------------------------------------------------------------------

  /** Writing a key twice keeps the second value only. */
  lemma UpdateTwice<K, V>(m: map<K, V>, k: K, a: V, b: V)
    ensures m[k := a][k := b] == m[k := b]
  {
  }

  /** The manager over the shared key-value store holding the profiles. */
  class StudentProfileManager {
    var store: map<string, Profile>

    constructor(store: map<string, Profile>)
      ensures this.store == store
    {
      this.store := store;
    }

    /** `get_student_profile(student_id)`: the stored profile, or a new
        default profile that is stored first. */
    method GetStudentProfile(studentId: string, now: string) returns (profile: Profile)
      modifies this
      ensures profile == StoredOrDefault(old(store), studentId, now)
      ensures store == old(store)[ProfileKey(studentId) := profile]
    {
      var key := ProfileKey(studentId);
      if key in store {
        profile := store[key];
        assert store == store[key := profile];
      } else {
        profile := DefaultProfile(studentId, now);
        store := store[key := profile];
      }
    }

    /** `update_profile_with_trace(student_id, trace)` */
    method UpdateProfileWithTrace(studentId: string, trace: Trace, now: string) returns (profile: Profile)
      modifies this
      ensures profile == ApplyTrace(StoredOrDefault(old(store), studentId, now), trace, now)
      ensures store == old(store)[ProfileKey(studentId) := profile]
    {
      profile := GetStudentProfile(studentId, now);
      if trace.TraceError? || trace.interaction.None? {
        return;
      }
      ghost var stored := profile;
      var interaction := trace.interaction.value;
      var history := profile.interactionHistory + [interaction];
      var ks := UpdateKnowledgeState(profile.knowledgeState, trace.knowledgeUpdates, interaction);
      var metrics := CalculateMetrics(ks);
      profile := profile.(interactionHistory := history, knowledgeState := ks, metrics := metrics, lastUpdated := now);
      assert profile == ApplyTrace(stored, trace, now);
      UpdateTwice(old(store), ProfileKey(studentId), stored, profile);
      store := store[ProfileKey(studentId) := profile];
    }

    /** `get_student_knowledge_state(student_id, subject)` */
    method GetStudentKnowledgeState(studentId: string, subject: Option<string>, now: string) returns (view: seq<(string, real)>)
      modifies this
      ensures view == KnowledgeStateView(StoredOrDefault(old(store), studentId, now).knowledgeState, subject)
      ensures store == old(store)[ProfileKey(studentId) := StoredOrDefault(old(store), studentId, now)]
    {
      var profile := GetStudentProfile(studentId, now);
      view := FilterKnowledgeState(profile.knowledgeState, subject);
    }

    /** `get_learning_recommendations(student_id, subject)` */
    method GetLearningRecommendations(studentId: string, subject: Option<string>, now: string) returns (recommendations: seq<Recommendation>)
      modifies this
      ensures recommendations == RecommendationsOf(KnowledgeStateView(StoredOrDefault(old(store), studentId, now).knowledgeState, subject))
      ensures store == old(store)[ProfileKey(studentId) := StoredOrDefault(old(store), studentId, now)]
    {
      var view := GetStudentKnowledgeState(studentId, subject, now);
      var candidates := CollectCandidates(view);
      recommendations := SortBy(candidates, RankOf);
    }

    /** `_calculate_metrics(profile)`, given the profile's knowledge state. */
    method CalculateMetrics(ks: KnowledgeState) returns (metrics: Metrics)
      ensures metrics == MetricsOf(ks)
    {
      if ks == [] {
        return Metrics(0.0, [], []);
      }
      var total := 0.0;
      var j := 0;
      while j < |ks|
        invariant 0 <= j <= |ks|
        invariant total == MasterySum(ks[..j])
      {
        assert ks[..j + 1][..j] == ks[..j];
        total := total + ks[j].1.currentValue;
        j := j + 1;
      }
      assert ks[..|ks|] == ks;
      var strengths: seq<MetricItem> := [];
      var areas: seq<MetricItem> := [];
      j := 0;
      while j < |ks|
        invariant 0 <= j <= |ks|
        invariant strengths == ItemsWhere(ks[..j], IsStrength)
        invariant areas == ItemsWhere(ks[..j], NeedsImprovement)
      {
        assert ks[..j + 1][..j] == ks[..j];
        var mastery := ks[j].1.currentValue;
        if mastery >= 0.8 {
          strengths := strengths + [ItemOf(ks[j])];
        } else if mastery < 0.6 {
          areas := areas + [ItemOf(ks[j])];
        }
        j := j + 1;
      }
      metrics := Metrics(total / |ks| as real, SortBy(strengths, NegatedMastery), SortBy(areas, Mastery));
    }
  }
}
