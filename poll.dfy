/** One polling pass of the worker over its target lists, as a function of the
    membership state before the pass and of what each list's fetch produced. */
module Poll {
  import opened Wrappers
  import opened JsString
  import opened Filter

  /** A card as the board API returns it; its name may be missing. */
  datatype Card = Card(id: string, name: Option<string>)

  /** A list to watch: its id and its display name. */
  datatype Target = Target(id: string, name: string)

  /** What the body of a successful response parsed to: an array of cards, or
      something that made parsing or filtering throw, with the exception's message. */
  datatype Body = CardList(cards: seq<Card>) | NotCards(message: string)

  /** What fetching one list produced: its cards, or an exception with its message. */
  datatype Fetched = Ok(cards: seq<Card>) | Threw(message: string)

  /** One per-list entry of a stats snapshot. */
  datatype Bucket = Bucket(id: string, name: string, count: nat)

  /** The notifications the worker posts to the page. */
  datatype Message =
    | Log(msg: string, isError: bool)
    | Alarm(cardName: string, listName: string)
    | Stats(total: nat, buckets: seq<Bucket>)
    | AuthFail

  /** The membership state: for each list id, the ids of its active cards. */
  type States = map<string, set<string>>

  /** The exception message that marks a rejected key or token. */
  const UnauthorizedMessage: string := "Unauthorized"

  /** `response.ok`: a status in the 200 range. */
  predicate IsOkStatus(status: nat) {
    200 <= status <= 299
  }

  /** An outcome the pass treats as fatal: an exception whose message is exactly
      `Unauthorized`. */
  predicate IsAuthFailure(f: Fetched) {
    f.Threw? && f.message == UnauthorizedMessage
  }

  /** `trelloFetch`, given the response status and what the body parses to:
      401 throws `Unauthorized`, any other status outside the 200 range throws
      `API Error: <status>`, and a 200-range response yields the parsed body. */
  function Classify(status: nat, body: Body): (r: Fetched)
    ensures status == 401 ==> IsAuthFailure(r)
    ensures status != 401 && !IsOkStatus(status) ==>
      !IsAuthFailure(r) && r == Threw("API Error: " + NatToString(status))
    ensures r.Ok? <==> IsOkStatus(status) && body.CardList?
    ensures r.Ok? ==> r.cards == body.cards
  {
    if status == 401 then Threw(UnauthorizedMessage)
    else if !IsOkStatus(status) then
      assert ("API Error: " + NatToString(status))[0] != UnauthorizedMessage[0];
      Threw("API Error: " + NatToString(status))
    else match body
      case CardList(cards) => Ok(cards)
      case NotCards(message) => Threw(message)
  }

  /** `rawCards.filter(c => !shouldIgnore(c.name))`. */
  function ActiveCards(cards: seq<Card>): (r: seq<Card>)
    ensures |r| <= |cards|
    ensures forall c :: c in r ==> c.name.Some?
  {
    if cards == [] then []
    else (if ShouldIgnore(cards[0].name) then [] else [cards[0]]) + ActiveCards(cards[1..])
  }

  /** The active cards are exactly the fetched cards that are not ignored. */
  lemma {:induction false} ActiveCardsMembers(cards: seq<Card>)
    ensures forall c :: c in ActiveCards(cards) <==> c in cards && !ShouldIgnore(c.name)
  {
    if cards != [] {
      ActiveCardsMembers(cards[1..]);
      assert cards == [cards[0]] + cards[1..];
    }
  }

  /** `new Set(cards.map(c => c.id))`: the ids, each added in turn. */
  function IdsOf(cards: seq<Card>): set<string> {
    if cards == [] then {} else {cards[0].id} + IdsOf(cards[1..])
  }

  /** An id is in the set exactly when some card carries it. */
  lemma {:induction false} IdsOfMembers(cards: seq<Card>, x: string)
    ensures x in IdsOf(cards) <==> exists c :: c in cards && c.id == x
  {
    if cards != [] {
      IdsOfMembers(cards[1..], x);
      assert cards == [cards[0]] + cards[1..];
    }
  }

  /** The ids of the cards that pass the ignore filter. */
  function ActiveIds(cards: seq<Card>): set<string> {
    IdsOf(ActiveCards(cards))
  }

  /** An id is an active id exactly when some card with that id is not ignored. */
  lemma ActiveIdsMembers(cards: seq<Card>, x: string)
    ensures x in ActiveIds(cards) <==> exists c :: c in cards && !ShouldIgnore(c.name) && c.id == x
  {
    ActiveCardsMembers(cards);
    IdsOfMembers(ActiveCards(cards), x);
  }

  /** `activeCards.find(c => !previousSet.has(c.id))`. */
  function FindNew(active: seq<Card>, prev: set<string>): (r: Option<Card>)
    ensures r.Some? ==> r.value in active
  {
    if active == [] then None
    else if active[0].id !in prev then Some(active[0])
    else FindNew(active[1..], prev)
  }

  /** `find` yields nothing exactly when every card's id is in `prev`, and
      otherwise a card whose id is not in `prev`, with all before it in `prev`. */
  lemma {:induction false} FindNewSpec(active: seq<Card>, prev: set<string>)
    ensures FindNew(active, prev).None? <==> forall c :: c in active ==> c.id in prev
    ensures match FindNew(active, prev)
      case None => true
      case Some(c) => exists i :: 0 <= i < |active| && active[i] == c && c.id !in prev &&
                        forall j :: 0 <= j < i ==> active[j].id in prev
  {
    if active != [] && active[0].id in prev {
      FindNewSpec(active[1..], prev);
      assert active == [active[0]] + active[1..];
      if FindNew(active, prev).Some? {
        var c := FindNew(active, prev).value;
        var i :| 0 <= i < |active[1..]| && active[1..][i] == c && c.id !in prev &&
                 forall j :: 0 <= j < i ==> active[1..][j].id in prev;
        assert active[i + 1] == c;
      }
    }
  }

  /** `listStates[id] || new Set()`. */
  function Previous(states: States, id: string): set<string> {
    if id in states then states[id] else {}
  }

  /** The error-flagged log line for a list whose fetch threw. */
  function SyncErrorLog(t: Target, message: string): Message {
    Log("Sync error on " + t.name + ": " + message, true)
  }

  /** The pass's accumulators after some prefix of the targets: the membership
      state, the running total, the buckets, whether an alarm fired, the
      notifications so far, and whether the pass stopped on an auth failure. */
  datatype Progress = Progress(
    states: States, total: nat, buckets: seq<Bucket>, alarmed: bool, out: seq<Message>, aborted: bool)

  /** One iteration of the loop over the targets. */
  function Step(p: Progress, t: Target, f: Fetched, isFirstRun: bool): Progress {
    if p.aborted then p
    else match f
      case Threw(message) =>
        if message == UnauthorizedMessage then p.(out := p.out + [AuthFail], aborted := true)
        else p.(out := p.out + [SyncErrorLog(t, message)])
      case Ok(cards) => Absorb(p, t, cards, isFirstRun)
  }

  /** The body of the `try` block for a list whose fetch returned `cards`:
      detect a new card unless this is the first run or an alarm already fired,
      replace the list's set, and count its active cards. */
  function Absorb(p: Progress, t: Target, cards: seq<Card>, isFirstRun: bool): Progress {
    var active := ActiveCards(cards);
    var current := IdsOf(active);
    var newCard := if !isFirstRun && !p.alarmed then FindNew(active, Previous(p.states, t.id)) else None;
    var alarm := if newCard.Some? then [Alarm(newCard.value.name.value, t.name)] else [];
    Progress(p.states[t.id := current], p.total + |current|,
             p.buckets + [Bucket(t.id, t.name, |current|)],
             p.alarmed || newCard.Some?, p.out + alarm, false)
  }

  /** The accumulators after the loop has handled the first `k` targets. */
  function After(states: States, targets: seq<Target>, outcomes: seq<Fetched>, isFirstRun: bool, k: nat): Progress
    requires |targets| == |outcomes| && k <= |targets|
  {
    if k == 0 then Progress(states, 0, [], false, [], false)
    else Step(After(states, targets, outcomes, isFirstRun, k - 1), targets[k - 1], outcomes[k - 1], isFirstRun)
  }

  /** What a whole pass leaves behind: the new membership state, the
      notifications in the order they are posted, and whether it stopped on an
      auth failure (in which case it also cancels the timer). */
  datatype PassResult = PassResult(states: States, out: seq<Message>, aborted: bool)

  /** `checkLists(isFirstRun)`: the loop over all targets, then the stats
      snapshot unless the loop returned early. */
  function Pass(states: States, targets: seq<Target>, outcomes: seq<Fetched>, isFirstRun: bool): PassResult
    requires |targets| == |outcomes|
  {
    var p := After(states, targets, outcomes, isFirstRun, |targets|);
    PassResult(p.states, if p.aborted then p.out else p.out + [Stats(p.total, p.buckets)], p.aborted)
  }
}
