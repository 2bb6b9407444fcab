/** What one polling pass promises: where it stops, which membership sets it
    replaces, which alarm it raises, and which log and stats notifications it
    posts. Each property is proved of `Poll.Pass` against a separate,
    direct description of the expected outcome. */
module PassProperties {
  import opened Wrappers
  import opened Filter
  import opened Poll

  // ---------------------------------------------------------------------------
  // Reference descriptions

  /** None of the first `k` outcomes is an auth failure: the loop gets past
      all of them. */
  predicate Clear(outcomes: seq<Fetched>, k: nat)
    requires k <= |outcomes|
  {
    k == 0 || (Clear(outcomes, k - 1) && !IsAuthFailure(outcomes[k - 1]))
  }

  /** `Clear` says, outcome by outcome, that none of the first `k` is fatal. */
  lemma {:induction false} ClearSpec(outcomes: seq<Fetched>, k: nat)
    requires k <= |outcomes|
    ensures Clear(outcomes, k) <==> forall j :: 0 <= j < k ==> !IsAuthFailure(outcomes[j])
  {
    if k > 0 {
      ClearSpec(outcomes, k - 1);
    }
  }

  /** A prefix of a clear prefix is clear. */
  lemma {:induction false} ClearPrefix(outcomes: seq<Fetched>, k: nat, j: nat)
    requires j <= k <= |outcomes| && Clear(outcomes, k)
    ensures Clear(outcomes, j)
    decreases k
  {
    if j < k {
      ClearPrefix(outcomes, k - 1, j);
    }
  }

  /** The position of the first fatal outcome at or after `i`, or the number
      of outcomes when there is none. */
  function FirstAuthFrom(outcomes: seq<Fetched>, i: nat): (k: nat)
    requires i <= |outcomes|
    ensures i <= k <= |outcomes|
    ensures Clear(outcomes, i) ==> Clear(outcomes, k)
    ensures k < |outcomes| ==> IsAuthFailure(outcomes[k])
    decreases |outcomes| - i
  {
    if i == |outcomes| then i
    else if IsAuthFailure(outcomes[i]) then i
    else FirstAuthFrom(outcomes, i + 1)
  }

  /** The position of the first fatal outcome, or the number of outcomes when
      there is none: the targets before it are the ones the pass handles. */
  function FirstAuth(outcomes: seq<Fetched>): (k: nat)
    ensures k <= |outcomes|
    ensures Clear(outcomes, k)
    ensures k < |outcomes| ==> IsAuthFailure(outcomes[k])
  {
    FirstAuthFrom(outcomes, 0)
  }

  /** Any position with only non-fatal outcomes before it and a fatal one (or
      the end) at it is the one `FirstAuthFrom` finds. */
  lemma {:induction false} FirstAuthFromIs(outcomes: seq<Fetched>, i: nat, a: nat)
    requires i <= a <= |outcomes|
    requires forall j :: i <= j < a ==> !IsAuthFailure(outcomes[j])
    requires a < |outcomes| ==> IsAuthFailure(outcomes[a])
    ensures FirstAuthFrom(outcomes, i) == a
    decreases a - i
  {
    if i < a {
      FirstAuthFromIs(outcomes, i + 1, a);
    }
  }

  /** A map lookup that tells a missing key apart. */
  function Lookup(states: States, id: string): Option<set<string>> {
    if id in states then Some(states[id]) else None
  }

  /** The last of the first `k` targets that has id `id` and whose fetch succeeded. */
  function LastOk(targets: seq<Target>, outcomes: seq<Fetched>, id: string, k: nat): (r: Option<nat>)
    requires |targets| == |outcomes| && k <= |targets|
    ensures r.Some? ==> r.value < k && outcomes[r.value].Ok? && targets[r.value].id == id
  {
    if k == 0 then None
    else if outcomes[k - 1].Ok? && targets[k - 1].id == id then Some(k - 1)
    else LastOk(targets, outcomes, id, k - 1)
  }

  /** `LastOk` finds the last successful fetch for `id` among the first `k`. */
  lemma {:induction false} LastOkSpec(targets: seq<Target>, outcomes: seq<Fetched>, id: string, k: nat)
    requires |targets| == |outcomes| && k <= |targets|
    ensures var r := LastOk(targets, outcomes, id, k);
      && (r.Some? ==> forall j :: r.value < j < k ==> !(outcomes[j].Ok? && targets[j].id == id))
      && (r.None? ==> forall j :: 0 <= j < k ==> !(outcomes[j].Ok? && targets[j].id == id))
  {
    if k > 0 {
      LastOkSpec(targets, outcomes, id, k - 1);
    }
  }

  /** The membership set a list id is expected to have after the first `k`
      targets: that of the last successful fetch for it among them, or else
      what it had before. */
  function MembershipFrom(states: States, targets: seq<Target>, outcomes: seq<Fetched>, id: string, k: nat): Option<set<string>>
    requires |targets| == |outcomes| && k <= |targets|
  {
    match LastOk(targets, outcomes, id, k)
    case Some(j) => Some(ActiveIds(outcomes[j].cards))
    case None => Lookup(states, id)
  }

  /** The membership set a list id is expected to have after the pass: that of
      the last successful fetch for it, or else what it had before. */
  function ExpectedMembership(states: States, targets: seq<Target>, outcomes: seq<Fetched>, id: string): Option<set<string>>
    requires |targets| == |outcomes|
  {
    MembershipFrom(states, targets, outcomes, id, FirstAuth(outcomes))
  }

  /** The set list id `id` is expected to hold on entry to target `i`: the
      expected membership after the targets before it, or empty if absent. */
  function ExpectedPrevious(states: States, targets: seq<Target>, outcomes: seq<Fetched>, id: string, i: nat): set<string>
    requires |targets| == |outcomes| && i <= |targets|
  {
    match MembershipFrom(states, targets, outcomes, id, i)
    case Some(prev) => prev
    case None => {}
  }

  /** The card that target `i` would raise an alarm for, were no alarm raised yet:
      the first of its active cards whose id is not in the set it is expected to
      hold on entry to its iteration. */
  function NewCardAt(states: States, targets: seq<Target>, outcomes: seq<Fetched>, i: nat): (r: Option<Card>)
    requires |targets| == |outcomes| && i < |targets|
    ensures r.Some? ==> outcomes[i].Ok? && r.value in ActiveCards(outcomes[i].cards)
  {
    if outcomes[i].Ok? then
      FindNew(ActiveCards(outcomes[i].cards), ExpectedPrevious(states, targets, outcomes, targets[i].id, i))
    else None
  }

  /** The first of the first `k` targets that has a new card. */
  function FirstNewBefore(states: States, targets: seq<Target>, outcomes: seq<Fetched>, k: nat): (r: Option<nat>)
    requires |targets| == |outcomes| && k <= |targets|
    ensures r.Some? ==> r.value < k && NewCardAt(states, targets, outcomes, r.value).Some?
  {
    if k == 0 then None
    else
      var r := FirstNewBefore(states, targets, outcomes, k - 1);
      if r.Some? then r
      else if NewCardAt(states, targets, outcomes, k - 1).Some? then Some(k - 1)
      else None
  }

  /** `FirstNewBefore` finds the first of the first `k` targets that has a new card. */
  lemma {:induction false} FirstNewBeforeSpec(states: States, targets: seq<Target>, outcomes: seq<Fetched>, k: nat)
    requires |targets| == |outcomes| && k <= |targets|
    ensures var r := FirstNewBefore(states, targets, outcomes, k);
      && (r.Some? ==> forall j :: 0 <= j < r.value ==> NewCardAt(states, targets, outcomes, j).None?)
      && (r.None? ==> forall j :: 0 <= j < k ==> NewCardAt(states, targets, outcomes, j).None?)
  {
    if k > 0 {
      FirstNewBeforeSpec(states, targets, outcomes, k - 1);
    }
  }

  /** The alarms expected from a pass that is not the first: one for the first
      target, among those handled, that has a new card, or none. */
  function ExpectedAlarms(states: States, targets: seq<Target>, outcomes: seq<Fetched>): seq<Message>
    requires |targets| == |outcomes|
  {
    match FirstNewBefore(states, targets, outcomes, FirstAuth(outcomes))
    case None => []
    case Some(i) =>
      var card := NewCardAt(states, targets, outcomes, i).value;
      [Alarm(card.name.value, targets[i].name)]
  }

  /** The error logs expected from the first `k` targets, in target order. */
  function ErrorLogsBefore(targets: seq<Target>, outcomes: seq<Fetched>, k: nat): seq<Message>
    requires |targets| == |outcomes| && k <= |targets|
  {
    if k == 0 then []
    else ErrorLogsBefore(targets, outcomes, k - 1) +
         (if outcomes[k - 1].Threw? then [SyncErrorLog(targets[k - 1], outcomes[k - 1].message)] else [])
  }

  /** The buckets expected from the first `k` targets: one per successful fetch,
      in target order, counting that list's distinct active card ids. */
  function BucketsBefore(targets: seq<Target>, outcomes: seq<Fetched>, k: nat): seq<Bucket>
    requires |targets| == |outcomes| && k <= |targets|
  {
    if k == 0 then []
    else BucketsBefore(targets, outcomes, k - 1) +
         (if outcomes[k - 1].Ok?
          then [Bucket(targets[k - 1].id, targets[k - 1].name, |ActiveIds(outcomes[k - 1].cards)|)]
          else [])
  }

  /** The sum of the buckets' counts. */
  function Sum(buckets: seq<Bucket>): nat {
    if buckets == [] then 0 else Sum(buckets[..|buckets| - 1]) + buckets[|buckets| - 1].count
  }

  /** The alarm notifications of a sequence, in order. */
  function Alarms(s: seq<Message>): seq<Message> {
    if s == [] then [] else Alarms(s[..|s| - 1]) + (if s[|s| - 1].Alarm? then [s[|s| - 1]] else [])
  }

  /** All notifications of a sequence other than alarms, in order. */
  function NonAlarms(s: seq<Message>): seq<Message> {
    if s == [] then [] else NonAlarms(s[..|s| - 1]) + (if s[|s| - 1].Alarm? then [] else [s[|s| - 1]])
  }

  lemma AppendOne(s: seq<Message>, m: Message)
    ensures Alarms(s + [m]) == Alarms(s) + (if m.Alarm? then [m] else [])
    ensures NonAlarms(s + [m]) == NonAlarms(s) + (if m.Alarm? then [] else [m])
  {
    assert (s + [m])[..|s|] == s;
  }

  lemma SumAppend(buckets: seq<Bucket>, b: Bucket)
    ensures Sum(buckets + [b]) == Sum(buckets) + b.count
  {
    assert (buckets + [b])[..|buckets|] == buckets;
  }

  /** The new card one iteration of a later run looks for, given the running
      accumulators: none once an alarm has fired. */
  function StepNewCard(p: Progress, t: Target, f: Fetched): (r: Option<Card>)
    ensures r.Some? ==> f.Ok? && r.value in ActiveCards(f.cards)
  {
    if f.Ok? && !p.alarmed then FindNew(ActiveCards(f.cards), Previous(p.states, t.id)) else None
  }

  /** What one non-fatal iteration adds, apart from alarms. */
  lemma StepReports(p: Progress, t: Target, f: Fetched, isFirstRun: bool)
    requires !p.aborted && !IsAuthFailure(f)
    ensures var q := Step(p, t, f, isFirstRun);
      && !q.aborted
      && NonAlarms(q.out) == NonAlarms(p.out) + (if f.Threw? then [SyncErrorLog(t, f.message)] else [])
      && q.buckets == p.buckets + (if f.Ok? then [Bucket(t.id, t.name, |ActiveIds(f.cards)|)] else [])
      && q.total == p.total + (if f.Ok? then |ActiveIds(f.cards)| else 0)
      && q.states == (if f.Ok? then p.states[t.id := ActiveIds(f.cards)] else p.states)
  {
    var q := Step(p, t, f, isFirstRun);
    match f
    case Threw(m) =>
      AppendOne(p.out, SyncErrorLog(t, m));
    case Ok(cards) =>
      if |q.out| > |p.out| {
        AppendOne(p.out, q.out[|q.out| - 1]);
        assert q.out == p.out + [q.out[|q.out| - 1]];
      } else {
        assert q.out == p.out;
      }
  }

  /** What one non-fatal iteration does to the set of one list id. */
  lemma MembershipStep(p: Progress, t: Target, f: Fetched, isFirstRun: bool, id: string)
    requires !p.aborted && !IsAuthFailure(f)
    ensures Lookup(Step(p, t, f, isFirstRun).states, id)
         == if f.Ok? && t.id == id then Some(ActiveIds(f.cards)) else Lookup(p.states, id)
  {
  }

  /** What one non-fatal iteration of a later run adds to the alarms. */
  lemma StepAlarms(p: Progress, t: Target, f: Fetched)
    requires !p.aborted && !IsAuthFailure(f)
    ensures var q := Step(p, t, f, false);
      var c := StepNewCard(p, t, f);
      && q.alarmed == (p.alarmed || c.Some?)
      && Alarms(q.out) == Alarms(p.out) + (if c.Some? then [Alarm(c.value.name.value, t.name)] else [])
  {
    var c := StepNewCard(p, t, f);
    match f
    case Threw(m) =>
      AppendOne(p.out, SyncErrorLog(t, m));
    case Ok(cards) =>
      if c.Some? {
        AppendOne(p.out, Alarm(c.value.name.value, t.name));
      } else {
        assert p.out + [] == p.out;
      }
  }

  // ---------------------------------------------------------------------------
  // Where the pass stops

  /** Before the first fatal outcome the loop is still running. */
  lemma {:induction false} RunningBeforeAuthFailure(
    states: States, targets: seq<Target>, outcomes: seq<Fetched>, isFirstRun: bool, k: nat)
    requires |targets| == |outcomes| && k <= |targets| && Clear(outcomes, k)
    ensures !After(states, targets, outcomes, isFirstRun, k).aborted
  {
    if k > 0 {
      RunningBeforeAuthFailure(states, targets, outcomes, isFirstRun, k - 1);
    }
  }

  /** From the first fatal outcome on, nothing changes any more. */
  lemma {:induction false} FrozenAfterAuthFailure(
    states: States, targets: seq<Target>, outcomes: seq<Fetched>, isFirstRun: bool, k: nat)
    requires |targets| == |outcomes| && FirstAuth(outcomes) < k <= |targets|
    ensures After(states, targets, outcomes, isFirstRun, k)
         == After(states, targets, outcomes, isFirstRun, FirstAuth(outcomes) + 1)
    ensures After(states, targets, outcomes, isFirstRun, k).aborted
  {
    var a := FirstAuth(outcomes);
    if k == a + 1 {
      RunningBeforeAuthFailure(states, targets, outcomes, isFirstRun, a);
    } else {
      FrozenAfterAuthFailure(states, targets, outcomes, isFirstRun, k - 1);
    }
  }

  /** The pass's accumulators equal those seen on reaching the first fatal
      outcome, plus its step, or those after all targets when there is none. */
  lemma PassStopsAtAuthFailure(states: States, targets: seq<Target>, outcomes: seq<Fetched>, isFirstRun: bool)
    requires |targets| == |outcomes|
    ensures var a := FirstAuth(outcomes);
      After(states, targets, outcomes, isFirstRun, |targets|)
        == After(states, targets, outcomes, isFirstRun, if a < |targets| then a + 1 else a)
    ensures Pass(states, targets, outcomes, isFirstRun).aborted <==> FirstAuth(outcomes) < |targets|
  {
    var a := FirstAuth(outcomes);
    if a < |targets| {
      FrozenAfterAuthFailure(states, targets, outcomes, isFirstRun, |targets|);
    } else {
      RunningBeforeAuthFailure(states, targets, outcomes, isFirstRun, |targets|);
    }
  }

  /** The pass ends where the loop stops: on the first fatal outcome, with
      `auth_fail` and no stats, or after all targets, with the stats. */
  lemma PassEnds(states: States, targets: seq<Target>, outcomes: seq<Fetched>, isFirstRun: bool)
    requires |targets| == |outcomes|
    ensures var a := FirstAuth(outcomes);
      var q := After(states, targets, outcomes, isFirstRun, a);
      var r := Pass(states, targets, outcomes, isFirstRun);
      && !q.aborted
      && r.states == q.states
      && r.aborted == (a < |targets|)
      && r.out == q.out + [if a < |targets| then AuthFail else Stats(q.total, q.buckets)]
  {
    var a := FirstAuth(outcomes);
    var q := After(states, targets, outcomes, isFirstRun, a);
    PassStopsAtAuthFailure(states, targets, outcomes, isFirstRun);
    RunningBeforeAuthFailure(states, targets, outcomes, isFirstRun, a);
    if a < |targets| {
      assert After(states, targets, outcomes, isFirstRun, a + 1) == Step(q, targets[a], outcomes[a], isFirstRun);
    }
  }

  /** An unauthorized fetch at target `a`, the first one, ends the pass: the
      notifications are those posted before it plus `auth_fail` and no stats,
      and the membership state is the one reached before it, so the targets
      handled earlier keep their new sets and no later target's set changes. */
  lemma AuthFailureEndsPass(states: States, targets: seq<Target>, outcomes: seq<Fetched>, isFirstRun: bool, a: nat)
    requires |targets| == |outcomes| && a < |targets|
    requires IsAuthFailure(outcomes[a]) && forall j :: 0 <= j < a ==> !IsAuthFailure(outcomes[j])
    ensures var r := Pass(states, targets, outcomes, isFirstRun);
      var before := After(states, targets, outcomes, isFirstRun, a);
      && r.aborted
      && r.states == before.states
      && r.out == before.out + [AuthFail]
  {
    FirstAuthFromIs(outcomes, 0, a);
    PassStopsAtAuthFailure(states, targets, outcomes, isFirstRun);
    RunningBeforeAuthFailure(states, targets, outcomes, isFirstRun, a);
  }

  /** A fetch that throws anything but `Unauthorized`, at a target the pass
      reaches, adds exactly one error-flagged log, leaves the membership state,
      the total and the buckets as they were, and lets the loop go on. */
  lemma SyncErrorIsSkipped(states: States, targets: seq<Target>, outcomes: seq<Fetched>, isFirstRun: bool, i: nat)
    requires |targets| == |outcomes| && i < FirstAuth(outcomes)
    requires outcomes[i].Threw?
    ensures var before := After(states, targets, outcomes, isFirstRun, i);
      var after := After(states, targets, outcomes, isFirstRun, i + 1);
      && after.states == before.states
      && after.total == before.total
      && after.buckets == before.buckets
      && after.alarmed == before.alarmed
      && after.out == before.out + [SyncErrorLog(targets[i], outcomes[i].message)]
      && !after.aborted
  {
    ClearPrefix(outcomes, FirstAuth(outcomes), i + 1);
    RunningBeforeAuthFailure(states, targets, outcomes, isFirstRun, i);
  }

  // ---------------------------------------------------------------------------
  // Membership state

  /** On entry to each handled target, every list id's set is that of its last
      successful fetch so far, or else what it was before the pass. */
  lemma {:induction false} MembershipSoFar(
    states: States, targets: seq<Target>, outcomes: seq<Fetched>, isFirstRun: bool, id: string, k: nat)
    requires |targets| == |outcomes| && k <= |targets| && Clear(outcomes, k)
    ensures Lookup(After(states, targets, outcomes, isFirstRun, k).states, id) == MembershipFrom(states, targets, outcomes, id, k)
  {
    if k > 0 {
      var p := After(states, targets, outcomes, isFirstRun, k - 1);
      var t, f := targets[k - 1], outcomes[k - 1];
      MembershipSoFar(states, targets, outcomes, isFirstRun, id, k - 1);
      RunningBeforeAuthFailure(states, targets, outcomes, isFirstRun, k - 1);
      MembershipStep(p, t, f, isFirstRun, id);
      assert After(states, targets, outcomes, isFirstRun, k) == Step(p, t, f, isFirstRun);
      if f.Ok? && t.id == id {
        assert MembershipFrom(states, targets, outcomes, id, k) == Some(ActiveIds(f.cards));
      } else {
        assert MembershipFrom(states, targets, outcomes, id, k) == MembershipFrom(states, targets, outcomes, id, k - 1);
      }
    }
  }

  /** After the pass, every list id's membership set is that of the last
      successful fetch for it before any auth failure, or else what it was
      before the pass (absent if it was absent). */
  lemma PassMembership(states: States, targets: seq<Target>, outcomes: seq<Fetched>, isFirstRun: bool, id: string)
    requires |targets| == |outcomes|
    ensures Lookup(Pass(states, targets, outcomes, isFirstRun).states, id)
         == ExpectedMembership(states, targets, outcomes, id)
  {
    var a := FirstAuth(outcomes);
    PassStopsAtAuthFailure(states, targets, outcomes, isFirstRun);
    MembershipSoFar(states, targets, outcomes, isFirstRun, id, a);
    if a < |targets| {
      RunningBeforeAuthFailure(states, targets, outcomes, isFirstRun, a);
    }
  }

  /** A successful fetch replaces the list's set with the ids of its active
      cards, whether or not an alarm fired, unless a later target with the same
      id replaces it again. */
  lemma SuccessfulFetchOverwrites(states: States, targets: seq<Target>, outcomes: seq<Fetched>, isFirstRun: bool, i: nat)
    requires |targets| == |outcomes| && i < FirstAuth(outcomes) && outcomes[i].Ok?
    requires forall j :: i < j < FirstAuth(outcomes) ==> !(outcomes[j].Ok? && targets[j].id == targets[i].id)
    ensures var s := Pass(states, targets, outcomes, isFirstRun).states;
      targets[i].id in s && s[targets[i].id] == ActiveIds(outcomes[i].cards)
  {
    PassMembership(states, targets, outcomes, isFirstRun, targets[i].id);
    LastOkSpec(targets, outcomes, targets[i].id, FirstAuth(outcomes));
    var r := LastOk(targets, outcomes, targets[i].id, FirstAuth(outcomes));
    assert r == Some(i);
  }

  /** A list id without a successful fetch before any auth failure keeps its set,
      and stays absent if it was absent. */
  lemma UnfetchedListKeepsState(states: States, targets: seq<Target>, outcomes: seq<Fetched>, isFirstRun: bool, id: string)
    requires |targets| == |outcomes|
    requires forall j :: 0 <= j < FirstAuth(outcomes) ==> !(outcomes[j].Ok? && targets[j].id == id)
    ensures Lookup(Pass(states, targets, outcomes, isFirstRun).states, id) == Lookup(states, id)
  {
    PassMembership(states, targets, outcomes, isFirstRun, id);
    LastOkSpec(targets, outcomes, id, FirstAuth(outcomes));
  }

  /** No ignored card's id is ever recorded, unless a non-ignored card of the
      same list carries the same id. */
  lemma IgnoredCardNotRecorded(cards: seq<Card>, c: Card)
    requires c in cards && ShouldIgnore(c.name)
    requires forall d :: d in cards && d.id == c.id ==> ShouldIgnore(d.name)
    ensures c.id !in ActiveIds(cards)
  {
    ActiveIdsMembers(cards, c.id);
  }

  // ---------------------------------------------------------------------------
  // Alarms

  /** The first run raises no alarm while it goes through the targets. */
  lemma {:induction false} FirstRunQuietSoFar(states: States, targets: seq<Target>, outcomes: seq<Fetched>, k: nat)
    requires |targets| == |outcomes| && k <= |targets|
    ensures Alarms(After(states, targets, outcomes, true, k).out) == []
  {
    if k > 0 {
      var p := After(states, targets, outcomes, true, k - 1);
      FirstRunQuietSoFar(states, targets, outcomes, k - 1);
      if !p.aborted {
        match outcomes[k - 1]
        case Threw(m) =>
          AppendOne(p.out, if m == UnauthorizedMessage then AuthFail else SyncErrorLog(targets[k - 1], m));
        case Ok(cards) =>
          assert p.out + [] == p.out;
      }
    }
  }

  /** The first run establishes the baseline and raises no alarm, whatever the
      lists contain. */
  lemma FirstRunRaisesNoAlarm(states: States, targets: seq<Target>, outcomes: seq<Fetched>)
    requires |targets| == |outcomes|
    ensures Alarms(Pass(states, targets, outcomes, true).out) == []
  {
    var p := After(states, targets, outcomes, true, |targets|);
    FirstRunQuietSoFar(states, targets, outcomes, |targets|);
    if !p.aborted {
      AppendOne(p.out, Stats(p.total, p.buckets));
    }
  }

  /** The membership state a pass builds does not depend on whether it is the
      first run. */
  lemma {:induction false} StatesIndependentOfFirstRun(
    states: States, targets: seq<Target>, outcomes: seq<Fetched>, isFirstRun: bool, k: nat)
    requires |targets| == |outcomes| && k <= |targets|
    ensures After(states, targets, outcomes, isFirstRun, k).states == After(states, targets, outcomes, false, k).states
    ensures After(states, targets, outcomes, isFirstRun, k).aborted == After(states, targets, outcomes, false, k).aborted
  {
    if k > 0 {
      StatesIndependentOfFirstRun(states, targets, outcomes, isFirstRun, k - 1);
    }
  }

  /** One handled iteration of a later run adds the alarm for its new card, if
      no alarm fired before it. */
  lemma AlarmStep(states: States, targets: seq<Target>, outcomes: seq<Fetched>, k: nat)
    requires |targets| == |outcomes| && k < |targets| && Clear(outcomes, k + 1)
    ensures var p := After(states, targets, outcomes, false, k);
      var q := After(states, targets, outcomes, false, k + 1);
      var c := if p.alarmed then None else NewCardAt(states, targets, outcomes, k);
      && q.alarmed == (p.alarmed || c.Some?)
      && Alarms(q.out) == Alarms(p.out) + (if c.Some? then [Alarm(c.value.name.value, targets[k].name)] else [])
  {
    var p := After(states, targets, outcomes, false, k);
    RunningBeforeAuthFailure(states, targets, outcomes, false, k);
    ClearPrefix(outcomes, k + 1, k);
    MembershipSoFar(states, targets, outcomes, false, targets[k].id, k);
    assert Previous(p.states, targets[k].id) == ExpectedPrevious(states, targets, outcomes, targets[k].id, k);
    StepAlarms(p, targets[k], outcomes[k]);
  }

  /** Later runs: while going through the targets, the alarms so far are one
      for the first target so far that has a new card, or none. */
  lemma {:induction false} AlarmsSoFar(states: States, targets: seq<Target>, outcomes: seq<Fetched>, k: nat)
    requires |targets| == |outcomes| && k <= |targets| && Clear(outcomes, k)
    ensures var p := After(states, targets, outcomes, false, k);
      var r := FirstNewBefore(states, targets, outcomes, k);
      && (p.alarmed <==> r.Some?)
      && Alarms(p.out) == match r
           case None => []
           case Some(i) => [Alarm(NewCardAt(states, targets, outcomes, i).value.name.value, targets[i].name)]
  {
    if k > 0 {
      AlarmsSoFar(states, targets, outcomes, k - 1);
      AlarmStep(states, targets, outcomes, k - 1);
      var r := FirstNewBefore(states, targets, outcomes, k - 1);
      if r.Some? {
        assert FirstNewBefore(states, targets, outcomes, k) == r;
      }
    }
  }

  /** A later pass raises exactly the expected alarm: for the first target, in
      target order and before any auth failure, that has an active card whose
      id was not in its previous set, naming that card and that list; none if
      there is no such target. */
  lemma PassAlarms(states: States, targets: seq<Target>, outcomes: seq<Fetched>)
    requires |targets| == |outcomes|
    ensures Alarms(Pass(states, targets, outcomes, false).out) == ExpectedAlarms(states, targets, outcomes)
  {
    var a := FirstAuth(outcomes);
    var q := After(states, targets, outcomes, false, a);
    PassEnds(states, targets, outcomes, false);
    AlarmsSoFar(states, targets, outcomes, a);
    AppendOne(q.out, if a < |targets| then AuthFail else Stats(q.total, q.buckets));
  }

  /** The notifications only grow as the loop goes on. */
  lemma {:induction false} OutGrows(
    states: States, targets: seq<Target>, outcomes: seq<Fetched>, isFirstRun: bool, j: nat, k: nat)
    requires |targets| == |outcomes| && j <= k <= |targets|
    ensures After(states, targets, outcomes, isFirstRun, j).out <= After(states, targets, outcomes, isFirstRun, k).out
    decreases k
  {
    if j < k {
      OutGrows(states, targets, outcomes, isFirstRun, j, k - 1);
    }
  }

  /** A sequence without alarms is its own non-alarm part. */
  lemma {:induction false} NoAlarmsAllNonAlarms(s: seq<Message>)
    requires Alarms(s) == []
    ensures NonAlarms(s) == s
  {
    if s != [] {
      var u := s[..|s| - 1];
      assert s == u + [s[|s| - 1]];
      AppendOne(u, s[|s| - 1]);
      NoAlarmsAllNonAlarms(u);
    }
  }

  /** The iteration that raises the alarm appends exactly that alarm. */
  lemma AlarmingStepOut(states: States, targets: seq<Target>, outcomes: seq<Fetched>, i: nat)
    requires |targets| == |outcomes| && i < |targets| && Clear(outcomes, i)
    requires !After(states, targets, outcomes, false, i).alarmed
    requires NewCardAt(states, targets, outcomes, i).Some?
    ensures var card := NewCardAt(states, targets, outcomes, i).value;
      After(states, targets, outcomes, false, i + 1).out
        == After(states, targets, outcomes, false, i).out + [Alarm(card.name.value, targets[i].name)]
  {
    var p := After(states, targets, outcomes, false, i);
    RunningBeforeAuthFailure(states, targets, outcomes, false, i);
    MembershipSoFar(states, targets, outcomes, false, targets[i].id, i);
    assert Previous(p.states, targets[i].id) == ExpectedPrevious(states, targets, outcomes, targets[i].id, i);
  }

  /** Before the first target with a new card, the loop has posted exactly
      the error logs of the targets handled so far. */
  lemma QuietPrefixIsLogs(states: States, targets: seq<Target>, outcomes: seq<Fetched>, i: nat)
    requires |targets| == |outcomes| && i <= |targets| && Clear(outcomes, i)
    requires FirstNewBefore(states, targets, outcomes, i).None?
    ensures !After(states, targets, outcomes, false, i).alarmed
    ensures After(states, targets, outcomes, false, i).out == ErrorLogsBefore(targets, outcomes, i)
  {
    AlarmsSoFar(states, targets, outcomes, i);
    ErrorLogsSoFar(states, targets, outcomes, false, i);
    NoAlarmsAllNonAlarms(After(states, targets, outcomes, false, i).out);
  }

  /** The first target with a new card among the first `a` has none before it. */
  lemma FirstNewHasNoneBefore(states: States, targets: seq<Target>, outcomes: seq<Fetched>, a: nat)
    requires |targets| == |outcomes| && a <= |targets|
    requires FirstNewBefore(states, targets, outcomes, a).Some?
    ensures FirstNewBefore(states, targets, outcomes, FirstNewBefore(states, targets, outcomes, a).value).None?
  {
    var i := FirstNewBefore(states, targets, outcomes, a).value;
    FirstNewBeforeSpec(states, targets, outcomes, a);
    FirstNewBeforeSpec(states, targets, outcomes, i);
  }

  /** The notifications of the loop so far start the notifications of the pass. */
  lemma AfterPrefixOfPass(states: States, targets: seq<Target>, outcomes: seq<Fetched>, isFirstRun: bool, k: nat)
    requires |targets| == |outcomes| && k <= |targets|
    ensures After(states, targets, outcomes, isFirstRun, k).out <= Pass(states, targets, outcomes, isFirstRun).out
  {
    OutGrows(states, targets, outcomes, isFirstRun, k, |targets|);
  }

  /** A sequence that starts with `logs + [m]` has `m` right after `logs`. */
  lemma PrefixThenOne(logs: seq<Message>, m: Message, out: seq<Message>)
    requires logs + [m] <= out
    ensures |logs| < |out| && out[..|logs|] == logs && out[|logs|] == m
  {
    assert out[..|logs|] == (logs + [m])[..|logs|];
  }

  /** Where the one alarm of a later pass sits: right after the error logs of
      the targets before the alarming one, and before anything posted for the
      targets after it. */
  lemma AlarmFollowsEarlierLogs(states: States, targets: seq<Target>, outcomes: seq<Fetched>)
    requires |targets| == |outcomes|
    requires FirstNewBefore(states, targets, outcomes, FirstAuth(outcomes)).Some?
    ensures var i := FirstNewBefore(states, targets, outcomes, FirstAuth(outcomes)).value;
      var out := Pass(states, targets, outcomes, false).out;
      var logs := ErrorLogsBefore(targets, outcomes, i);
      && |logs| < |out|
      && out[..|logs|] == logs
      && [out[|logs|]] == ExpectedAlarms(states, targets, outcomes)
  {
    var a := FirstAuth(outcomes);
    var i := FirstNewBefore(states, targets, outcomes, a).value;
    FirstNewHasNoneBefore(states, targets, outcomes, a);
    ClearPrefix(outcomes, a, i);
    QuietPrefixIsLogs(states, targets, outcomes, i);
    AlarmingStepOut(states, targets, outcomes, i);
    AfterPrefixOfPass(states, targets, outcomes, false, i + 1);
    var card := NewCardAt(states, targets, outcomes, i).value;
    PrefixThenOne(ErrorLogsBefore(targets, outcomes, i), Alarm(card.name.value, targets[i].name),
                  Pass(states, targets, outcomes, false).out);
  }

  /** A pass raises at most one alarm. */
  lemma AtMostOneAlarm(states: States, targets: seq<Target>, outcomes: seq<Fetched>, isFirstRun: bool)
    requires |targets| == |outcomes|
    ensures |Alarms(Pass(states, targets, outcomes, isFirstRun).out)| <= 1
  {
    if isFirstRun {
      FirstRunRaisesNoAlarm(states, targets, outcomes);
    } else {
      PassAlarms(states, targets, outcomes);
    }
  }

  /** Every card that is not ignored has an id in `prev`. */
  predicate AllSeen(cards: seq<Card>, prev: set<string>) {
    forall i :: 0 <= i < |cards| && !ShouldIgnore(cards[i].name) ==> cards[i].id in prev
  }

  /** All cards are seen exactly when the first one is and all the rest are. */
  lemma AllSeenSplit(cards: seq<Card>, prev: set<string>)
    requires cards != []
    ensures AllSeen(cards, prev)
        <==> (ShouldIgnore(cards[0].name) || cards[0].id in prev) && AllSeen(cards[1..], prev)
  {
    var rest := cards[1..];
    assert forall i :: 1 <= i < |cards| ==> cards[i] == rest[i - 1];
    if (ShouldIgnore(cards[0].name) || cards[0].id in prev) && AllSeen(rest, prev) {
      forall i | 0 <= i < |cards| && !ShouldIgnore(cards[i].name)
        ensures cards[i].id in prev
      {
        if i > 0 {
          assert cards[i] == rest[i - 1];
        }
      }
    }
  }

  /** `FindNew` finds no card among the active cards exactly when every card
      that is not ignored has an id in `prev`. */
  lemma {:induction false} NoNewCardIffAllSeen(cards: seq<Card>, prev: set<string>)
    ensures FindNew(ActiveCards(cards), prev).None? <==> AllSeen(cards, prev)
  {
    if cards != [] {
      var rest := cards[1..];
      NoNewCardIffAllSeen(rest, prev);
      AllSeenSplit(cards, prev);
      var active := ActiveCards(cards);
      if ShouldIgnore(cards[0].name) {
        assert active == ActiveCards(rest);
      } else {
        assert active == [cards[0]] + ActiveCards(rest);
        assert active[1..] == ActiveCards(rest);
        if cards[0].id in prev {
          assert FindNew(active, prev) == FindNew(ActiveCards(rest), prev);
        }
      }
    }
  }

  /** The card `FindNew` picks from the active cards is the first card, in the
      fetched order, that is not ignored and whose id is not in `prev`. */
  lemma {:induction false} NewCardIsFirstInCardOrder(cards: seq<Card>, prev: set<string>)
    requires FindNew(ActiveCards(cards), prev).Some?
    ensures var c := FindNew(ActiveCards(cards), prev).value;
      exists i :: 0 <= i < |cards| && cards[i] == c && !ShouldIgnore(c.name) && c.id !in prev &&
        forall j :: 0 <= j < i ==> ShouldIgnore(cards[j].name) || cards[j].id in prev
    decreases |cards|, 1
  {
    var rest := cards[1..];
    var c := FindNew(ActiveCards(cards), prev).value;
    if ShouldIgnore(cards[0].name) {
      assert ActiveCards(cards) == ActiveCards(rest);
      NewCardPastFirst(cards, prev);
    } else {
      var active := ActiveCards(cards);
      assert active == [cards[0]] + ActiveCards(rest);
      if cards[0].id !in prev {
        assert c == cards[0];
      } else {
        assert active[1..] == ActiveCards(rest);
        assert FindNew(active, prev) == FindNew(ActiveCards(rest), prev);
        NewCardPastFirst(cards, prev);
      }
    }
  }

  /** The inductive step: when the first card is passed over, the card found
      in the rest sits one place further in the whole list. */
  lemma {:induction false} NewCardPastFirst(cards: seq<Card>, prev: set<string>)
    requires cards != [] && (ShouldIgnore(cards[0].name) || cards[0].id in prev)
    requires FindNew(ActiveCards(cards[1..]), prev).Some?
    ensures var c := FindNew(ActiveCards(cards[1..]), prev).value;
      exists i :: 0 <= i < |cards| && cards[i] == c && !ShouldIgnore(c.name) && c.id !in prev &&
        forall j :: 0 <= j < i ==> ShouldIgnore(cards[j].name) || cards[j].id in prev
    decreases |cards|, 0
  {
    var rest := cards[1..];
    NewCardIsFirstInCardOrder(rest, prev);
    var c := FindNew(ActiveCards(rest), prev).value;
    var i :| 0 <= i < |rest| && rest[i] == c && !ShouldIgnore(c.name) && c.id !in prev &&
             forall j :: 0 <= j < i ==> ShouldIgnore(rest[j].name) || rest[j].id in prev;
    assert cards[i + 1] == c;
    assert forall j :: 1 <= j < i + 1 ==> cards[j] == rest[j - 1];
  }

  // ---------------------------------------------------------------------------
  // Logs and stats

  /** While going through the targets, the notifications other than alarms are
      the error logs so far. */
  lemma {:induction false} ErrorLogsSoFar(
    states: States, targets: seq<Target>, outcomes: seq<Fetched>, isFirstRun: bool, k: nat)
    requires |targets| == |outcomes| && k <= |targets| && Clear(outcomes, k)
    ensures NonAlarms(After(states, targets, outcomes, isFirstRun, k).out) == ErrorLogsBefore(targets, outcomes, k)
  {
    if k > 0 {
      var p := After(states, targets, outcomes, isFirstRun, k - 1);
      ErrorLogsSoFar(states, targets, outcomes, isFirstRun, k - 1);
      RunningBeforeAuthFailure(states, targets, outcomes, isFirstRun, k - 1);
      StepReports(p, targets[k - 1], outcomes[k - 1], isFirstRun);
    }
  }

  /** While going through the targets, the buckets are those of the successful
      fetches so far, and the total is the sum of their counts. */
  lemma {:induction false} BucketsSoFar(
    states: States, targets: seq<Target>, outcomes: seq<Fetched>, isFirstRun: bool, k: nat)
    requires |targets| == |outcomes| && k <= |targets| && Clear(outcomes, k)
    ensures var p := After(states, targets, outcomes, isFirstRun, k);
      p.buckets == BucketsBefore(targets, outcomes, k) && p.total == Sum(p.buckets)
  {
    if k > 0 {
      var p := After(states, targets, outcomes, isFirstRun, k - 1);
      BucketsSoFar(states, targets, outcomes, isFirstRun, k - 1);
      RunningBeforeAuthFailure(states, targets, outcomes, isFirstRun, k - 1);
      StepReports(p, targets[k - 1], outcomes[k - 1], isFirstRun);
      if outcomes[k - 1].Ok? {
        SumAppend(p.buckets, Bucket(targets[k - 1].id, targets[k - 1].name, |ActiveIds(outcomes[k - 1].cards)|));
      }
    }
  }

  /** Everything but the alarm that a pass posts, exactly: an error-flagged log
      for each list whose fetch threw, in target order, then `auth_fail` if some
      fetch was unauthorized, or else one stats snapshot whose buckets are the
      successful lists in target order and whose total is the sum of their
      counts. */
  lemma PassReports(states: States, targets: seq<Target>, outcomes: seq<Fetched>, isFirstRun: bool)
    requires |targets| == |outcomes|
    ensures var a := FirstAuth(outcomes);
      var buckets := BucketsBefore(targets, outcomes, |targets|);
      NonAlarms(Pass(states, targets, outcomes, isFirstRun).out)
        == ErrorLogsBefore(targets, outcomes, a)
           + (if a < |targets| then [AuthFail] else [Stats(Sum(buckets), buckets)])
  {
    if FirstAuth(outcomes) < |targets| {
      AbortedPassReports(states, targets, outcomes, isFirstRun);
    } else {
      CompletedPassReports(states, targets, outcomes, isFirstRun);
    }
  }

  /** A pass that meets an auth failure posts the error logs before it, then
      `auth_fail`. */
  lemma AbortedPassReports(states: States, targets: seq<Target>, outcomes: seq<Fetched>, isFirstRun: bool)
    requires |targets| == |outcomes| && FirstAuth(outcomes) < |targets|
    ensures NonAlarms(Pass(states, targets, outcomes, isFirstRun).out)
         == ErrorLogsBefore(targets, outcomes, FirstAuth(outcomes)) + [AuthFail]
  {
    var a := FirstAuth(outcomes);
    var q := After(states, targets, outcomes, isFirstRun, a);
    PassStopsAtAuthFailure(states, targets, outcomes, isFirstRun);
    ErrorLogsSoFar(states, targets, outcomes, isFirstRun, a);
    RunningBeforeAuthFailure(states, targets, outcomes, isFirstRun, a);
    assert After(states, targets, outcomes, isFirstRun, a + 1) == Step(q, targets[a], outcomes[a], isFirstRun);
    AppendOne(q.out, AuthFail);
  }

  /** A pass without an auth failure posts the error logs, then the stats. */
  lemma CompletedPassReports(states: States, targets: seq<Target>, outcomes: seq<Fetched>, isFirstRun: bool)
    requires |targets| == |outcomes| && FirstAuth(outcomes) == |targets|
    ensures var buckets := BucketsBefore(targets, outcomes, |targets|);
      NonAlarms(Pass(states, targets, outcomes, isFirstRun).out)
        == ErrorLogsBefore(targets, outcomes, |targets|) + [Stats(Sum(buckets), buckets)]
  {
    var p := After(states, targets, outcomes, isFirstRun, |targets|);
    ErrorLogsSoFar(states, targets, outcomes, isFirstRun, |targets|);
    BucketsSoFar(states, targets, outcomes, isFirstRun, |targets|);
    RunningBeforeAuthFailure(states, targets, outcomes, isFirstRun, |targets|);
    AppendOne(p.out, Stats(p.total, p.buckets));
  }

  // ---------------------------------------------------------------------------
  // Polling again

  /** No card is new against the ids of its own list. */
  lemma FindNewInOwnIds(active: seq<Card>)
    ensures FindNew(active, IdsOf(active)).None?
  {
    FindNewSpec(active, IdsOf(active));
    forall c | c in active
      ensures c.id in IdsOf(active)
    {
      IdsOfMembers(active, c.id);
    }
  }

  /** Polling the same cards again, right after a pass, raises no alarm when
      the lists have distinct ids: every card seen is in its list's set. */
  lemma RepollWithoutChangesIsQuiet(states: States, targets: seq<Target>, outcomes: seq<Fetched>, isFirstRun: bool)
    requires |targets| == |outcomes|
    requires forall i, j :: 0 <= i < j < |targets| ==> targets[i].id != targets[j].id
    ensures Alarms(Pass(Pass(states, targets, outcomes, isFirstRun).states, targets, outcomes, false).out) == []
  {
    var seen := Pass(states, targets, outcomes, isFirstRun).states;
    var a := FirstAuth(outcomes);
    forall i | 0 <= i < a
      ensures NewCardAt(seen, targets, outcomes, i).None?
    {
      if outcomes[i].Ok? {
        var id := targets[i].id;
        SuccessfulFetchOverwrites(states, targets, outcomes, isFirstRun, i);
        LastOkSpec(targets, outcomes, id, i);
        assert LastOk(targets, outcomes, id, i).None?;
        assert ExpectedPrevious(seen, targets, outcomes, id, i) == ActiveIds(outcomes[i].cards);
        FindNewInOwnIds(ActiveCards(outcomes[i].cards));
      }
    }
    FirstNewBeforeSpec(seen, targets, outcomes, a);
    PassAlarms(seen, targets, outcomes);
  }
}
