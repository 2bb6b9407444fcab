/** The worker itself: its module-level variables as the fields of one object,
    the `checkLists` loop as a method that updates them in place, and the
    `start`/`stop` commands of its message handler. The timer is kept as the
    set of interval handles that are armed; fetches are supplied as one outcome
    per target. */
module Worker {
  import opened Wrappers
  import opened JsString
  import opened Poll
  import opened PassProperties

  /** A command posted to the worker: `start` with the credentials and the
      lists to watch, `stop`, or any other `cmd`, which the handler ignores. */
  datatype Command =
    | Start(apiKey: string, token: string, targets: seq<Target>)
    | Stop
    | Other(cmd: string)

  /** The log line `startLoop` posts first. */
  function StartedLog(n: nat): Message {
    Log("Worker started. Monitoring " + NatToString(n) + " lists...", false)
  }

  /** The log line `stop` posts. */
  const StoppedLog: Message := Log("Worker stopped.", false)

  class TrelloWorker {
    /** `intervalId`: the handle of the last interval armed, or null. */
    var intervalId: Option<nat>
    /** `listStates`: for each list id, the ids of its active cards. */
    var listStates: States
    var apiKey: string
    var token: string
    /** The lists the running loop goes through (captured by `startLoop`). */
    var targets: seq<Target>
    /** The interval handles that are armed, i.e. whose callback still fires. */
    var armed: set<nat>
    /** The handle the next `setInterval` returns; handles are positive. */
    var nextHandle: nat

    /** At most one interval is armed, and it is the one `intervalId` holds;
        every handle handed out so far is below `nextHandle`. */
    ghost predicate Valid()
      reads this
    {
      && 0 < nextHandle
      && (forall h :: h in armed ==> intervalId == Some(h))
      && (intervalId.Some? ==> 0 < intervalId.value < nextHandle)
    }

    /** The state when the worker script is loaded: no interval, no state,
        empty credentials. */
    constructor ()
      ensures Valid()
      ensures intervalId == None && armed == {} && listStates == map[]
      ensures apiKey == "" && token == "" && targets == []
    {
      intervalId := None;
      listStates := map[];
      apiKey := "";
      token := "";
      targets := [];
      armed := {};
      nextHandle := 1;
    }

    /** `clearInterval(h)`: disarms `h`; a null handle or one not armed is left alone. */
    method ClearInterval(h: Option<nat>)
      requires Valid()
      modifies this`armed
      ensures Valid()
      ensures armed == if h.Some? then old(armed) - {h.value} else old(armed)
    {
      if h.Some? {
        armed := armed - {h.value};
      }
    }

    /** `checkLists(isFirstRun)` over `targets`, where `outcomes[i]` is what
        fetching `targets[i]` produced. The membership state and the
        notifications are exactly those of `Poll.Pass`; an auth failure
        also disarms the interval `intervalId` holds at that moment. */
    method CheckLists(outcomes: seq<Fetched>, isFirstRun: bool) returns (emitted: seq<Message>)
      requires Valid() && |outcomes| == |targets|
      modifies this`listStates, this`armed
      ensures Valid()
      ensures var r := Pass(old(listStates), targets, outcomes, isFirstRun);
        && listStates == r.states
        && emitted == r.out
        && armed == (if r.aborted && intervalId.Some? then old(armed) - {intervalId.value} else old(armed))
    {
      ghost var start := listStates;
      var globalTotal: nat := 0;
      var bucketStats: seq<Bucket> := [];
      var alarmTriggered := false;
      emitted := [];
      for i := 0 to |targets|
        invariant Clear(outcomes, i)
        invariant armed == old(armed)
        invariant After(start, targets, outcomes, isFirstRun, i)
               == Progress(listStates, globalTotal, bucketStats, alarmTriggered, emitted, false)
      {
        ghost var before := Progress(listStates, globalTotal, bucketStats, alarmTriggered, emitted, false);
        var target := targets[i];
        match outcomes[i] {
        case Threw(message) =>
          if message == UnauthorizedMessage {
            ClearInterval(intervalId);
            emitted := emitted + [AuthFail];
            ClearSpec(outcomes, i);
            AuthFailureEndsPass(start, targets, outcomes, isFirstRun, i);
            return;
          }
          emitted := emitted + [SyncErrorLog(target, message)];
          assert Step(before, target, outcomes[i], isFirstRun)
              == Progress(listStates, globalTotal, bucketStats, alarmTriggered, emitted, false);
        case Ok(rawCards) =>
          var activeCards := ActiveCards(rawCards);
          var currentSet := IdsOf(activeCards);
          var previousSet := Previous(listStates, target.id);
          if !isFirstRun && !alarmTriggered {
            var newCard := FindNew(activeCards, previousSet);
            if newCard.Some? {
              emitted := emitted + [Alarm(newCard.value.name.value, target.name)];
              alarmTriggered := true;
            }
          }
          listStates := listStates[target.id := currentSet];
          var count := |currentSet|;
          globalTotal := globalTotal + count;
          bucketStats := bucketStats + [Bucket(target.id, target.name, count)];
          assert Step(before, target, outcomes[i], isFirstRun)
              == Progress(listStates, globalTotal, bucketStats, alarmTriggered, emitted, false);
        }
        StepOfLoop(start, targets, outcomes, isFirstRun, i, before);
      }
      CompletedPass(start, targets, outcomes, isFirstRun);
      emitted := emitted + [Stats(globalTotal, bucketStats)];
    }

    /** The `start` command: store the credentials, disarm the previous
        interval, clear the membership state, then `startLoop(lists)`.
        `firstOutcomes` are the fetches of the first pass. */
    method OnStart(key: string, tok: string, lists: seq<Target>, firstOutcomes: seq<Fetched>)
      returns (emitted: seq<Message>)
      requires Valid() && |firstOutcomes| == |lists|
      modifies this
      ensures Valid()
      ensures apiKey == key && token == tok && targets == lists
      ensures var r := Pass(map[], lists, firstOutcomes, true);
        && listStates == r.states
        && emitted == [StartedLog(|lists|)] + r.out
      ensures Alarms(emitted) == []
      ensures intervalId == Some(old(nextHandle)) && armed == {old(nextHandle)}
      ensures nextHandle == old(nextHandle) + 1
    {
      apiKey := key;
      token := tok;
      if intervalId.Some? {
        ClearInterval(intervalId);
      }
      listStates := map[];
      emitted := StartLoop(lists, firstOutcomes);
    }

    /** `startLoop(lists)`: post the started log, run the first pass (which
        raises no alarm), then arm a new interval whatever that pass did. Its
        caller has disarmed any earlier interval. */
    method StartLoop(lists: seq<Target>, firstOutcomes: seq<Fetched>) returns (emitted: seq<Message>)
      requires Valid() && |firstOutcomes| == |lists| && armed == {}
      modifies this`targets, this`listStates, this`armed, this`intervalId, this`nextHandle
      ensures Valid()
      ensures targets == lists
      ensures var r := Pass(old(listStates), lists, firstOutcomes, true);
        && listStates == r.states
        && emitted == [StartedLog(|lists|)] + r.out
      ensures Alarms(emitted) == []
      ensures intervalId == Some(old(nextHandle)) && nextHandle == old(nextHandle) + 1
      ensures armed == {old(nextHandle)}
    {
      targets := lists;
      emitted := [StartedLog(|lists|)];
      var pass := CheckLists(firstOutcomes, true);
      emitted := emitted + pass;
      FirstRunRaisesNoAlarm(old(listStates), lists, firstOutcomes);
      AlarmsAppend([StartedLog(|lists|)], pass);
      intervalId := Some(nextHandle);
      armed := armed + {nextHandle};
      nextHandle := nextHandle + 1;
    }

    /** A tick of the armed interval: a later pass over the stored targets. */
    method OnTick(outcomes: seq<Fetched>) returns (emitted: seq<Message>)
      requires Valid() && intervalId.Some? && intervalId.value in armed
      requires |outcomes| == |targets|
      modifies this`listStates, this`armed
      ensures Valid()
      ensures var r := Pass(old(listStates), targets, outcomes, false);
        && listStates == r.states
        && emitted == r.out
        && |Alarms(emitted)| <= 1
        && (r.aborted <==> armed == {})
        && (!r.aborted ==> armed == old(armed))
    {
      emitted := CheckLists(outcomes, false);
      AtMostOneAlarm(old(listStates), targets, outcomes, false);
    }

    /** The `stop` command: disarm the interval, forget its handle, clear the
        membership state and post the stopped log. */
    method OnStop() returns (emitted: seq<Message>)
      requires Valid()
      modifies this`intervalId, this`listStates, this`armed
      ensures Valid()
      ensures intervalId == None && armed == {} && listStates == map[]
      ensures emitted == [StoppedLog]
    {
      if intervalId.Some? {
        ClearInterval(intervalId);
      }
      intervalId := None;
      listStates := map[];
      emitted := [StoppedLog];
    }

    /** `self.onmessage`: dispatch on the command; any other command changes
        nothing and posts nothing. */
    method OnMessage(command: Command, firstOutcomes: seq<Fetched>) returns (emitted: seq<Message>)
      requires Valid()
      requires command.Start? ==> |firstOutcomes| == |command.targets|
      modifies this
      ensures Valid()
      ensures command.Start? ==>
        && apiKey == command.apiKey && token == command.token && targets == command.targets
        && listStates == Pass(map[], command.targets, firstOutcomes, true).states
        && emitted == [StartedLog(|command.targets|)] + Pass(map[], command.targets, firstOutcomes, true).out
        && Alarms(emitted) == []
        && intervalId == Some(old(nextHandle)) && armed == {old(nextHandle)}
        && nextHandle == old(nextHandle) + 1
      ensures command.Stop? ==>
        && listStates == map[] && intervalId == None && armed == {} && emitted == [StoppedLog]
        && apiKey == old(apiKey) && token == old(token) && targets == old(targets)
        && nextHandle == old(nextHandle)
      ensures command.Other? ==> emitted == [] && unchanged(this)
    {
      match command
      case Start(key, tok, lists) =>
        emitted := OnStart(key, tok, lists, firstOutcomes);
      case Stop =>
        emitted := OnStop();
      case Other(_) =>
        emitted := [];
    }
  }

  /** The loop's accumulators after target `i` are one `Step` from those before it. */
  lemma StepOfLoop(states: States, targets: seq<Target>, outcomes: seq<Fetched>, isFirstRun: bool, i: nat, p: Progress)
    requires |targets| == |outcomes| && i < |targets|
    requires After(states, targets, outcomes, isFirstRun, i) == p
    ensures After(states, targets, outcomes, isFirstRun, i + 1) == Step(p, targets[i], outcomes[i], isFirstRun)
  {
  }

  /** A pass whose loop got through every target adds the stats snapshot of
      the final accumulators. */
  lemma CompletedPass(states: States, targets: seq<Target>, outcomes: seq<Fetched>, isFirstRun: bool)
    requires |targets| == |outcomes| && !After(states, targets, outcomes, isFirstRun, |targets|).aborted
    ensures var p := After(states, targets, outcomes, isFirstRun, |targets|);
      Pass(states, targets, outcomes, isFirstRun) == PassResult(p.states, p.out + [Stats(p.total, p.buckets)], false)
  {
  }

  /** Alarms of a concatenation are the alarms of each part. */
  lemma {:induction false} AlarmsAppend(s: seq<Message>, t: seq<Message>)
    ensures Alarms(s + t) == Alarms(s) + Alarms(t)
    decreases |t|
  {
    if t != [] {
      var u := t[..|t| - 1];
      assert s + t == (s + u) + [t[|t| - 1]];
      assert t == u + [t[|t| - 1]];
      AlarmsAppend(s, u);
      AppendOne(s + u, t[|t| - 1]);
      AppendOne(u, t[|t| - 1]);
    } else {
      assert s + t == s;
    }
  }
}
