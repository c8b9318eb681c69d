/** What a drain of the steering queue says, drops and keeps: nls/agentic/bridge.py. */
module SteeringProperties {
  import opened Sequences
  import opened Text
  import opened Messages
  import opened SteeringQueue

  // ----- Kinds of items -----

  /** The producer asked for the ring only. */
  predicate IsRingOnly(item: Item, lower: string -> string) {
    item.Entry? && item.delivery.Some? && Strip(item.delivery.value) != ""
    && lower(Strip(item.delivery.value)) == "ring"
  }

  /** A dictionary that has an action instead of content. */
  predicate IsIntervention(item: Item) {
    item.Entry? && item.content == "" && item.action.Some?
  }

  /** It must wait for a blocking read: it is confined to the ring, or neither a hint nor an extension. */
  predicate IsHeld(item: Item, lower: string -> string) {
    IsIntervention(item)
    && (IsRingOnly(item, lower) || (item.action.value != "hint" && item.action.value != "extend"))
  }

  /** Text that is not blank, a dictionary with content, or a hint or an extension for the chat. */
  predicate IsSpoken(item: Item, lower: string -> string) {
    (item.Line? && Strip(item.text) != "")
    || (item.Entry? && item.content != "")
    || (IsIntervention(item) && !IsHeld(item, lower))
  }

  /** Nothing to say: a blank text, a dictionary with neither content nor action, or something else altogether. */
  predicate IsIdle(item: Item) {
    (item.Line? && Strip(item.text) == "") || (item.Entry? && item.content == "" && item.action.None?) || item.Foreign?
  }

  function OrElse(text: string, default: string): string {
    if text != "" then text else default
  }

  /** Hints are cut after 4000 characters. */
  function Shortened(text: string): string {
    if |text| > 4000 then text[..4000] + "..." else text
  }

  function MessageFor(item: Item, lower: string -> string): Message
    requires IsSpoken(item, lower)
  {
    if item.Line? then Message(User, item.text, [], "")
    else if item.content != "" then Message(item.role, item.content, [], "")
    else if item.action.value == "hint" then
      Message(User, "[ORCHESTRATOR HINT] " + Shortened(OrElse(Strip(item.message), "Try a different approach.")), [],
          "")
    else Message(User, "[ORCHESTRATOR] " + OrElse(Strip(item.message), "Iteration budget extended."), [], "")
  }

  // ----- Stripping twice -----

  lemma {:induction false} LeftStripFirst(s: string)
    ensures LeftStrip(s) == "" || !IsSpace(LeftStrip(s)[0])
  {
    if s != [] && IsSpace(s[0]) {
      LeftStripFirst(s[1..]);
    }
  }

  lemma {:induction false} RightStripEnds(s: string)
    ensures RightStrip(s) == "" || !IsSpace(RightStrip(s)[|RightStrip(s)| - 1])
    ensures RightStrip(s) != "" ==> RightStrip(s)[0] == s[0]
  {
    if s != [] && IsSpace(s[|s| - 1]) {
      RightStripEnds(s[..|s| - 1]);
    }
  }

  lemma StripTwice(s: string)
    ensures Strip(Strip(s)) == Strip(s)
  {
    LeftStripFirst(s);
    RightStripEnds(LeftStrip(s));
    if Strip(s) != "" {
      StripTrimmed(Strip(s));
    }
  }

  // ----- Items and their fates -----

  lemma HintText(message: string)
    ensures ChatHint(message) == Message(User, "[ORCHESTRATOR HINT] " + Shortened(Strip(message)), [], "")
  {
    hide Strip;
    assert HINT_MARK + " " == "[ORCHESTRATOR HINT] ";
  }

  lemma RingExactly(item: Item, lower: string -> string)
    requires item.Entry?
    ensures NormalizeDelivery(item.delivery, lower) == Some(Ring) <==> IsRingOnly(item, lower)
  {
    hide Strip;
  }

  lemma DefaultHint()
    ensures Strip("Try a different approach.") == "Try a different approach."
  {
    StripTrimmed("Try a different approach.");
  }

  lemma FateExactly(item: Item, lower: string -> string)
    ensures IsSpoken(item, lower) ==> FateOf(item, lower) == Delivered(MessageFor(item, lower))
    ensures IsHeld(item, lower) ==> FateOf(item, lower) == Returned
    ensures IsIdle(item) ==> FateOf(item, lower) == Discarded
    ensures item.Malformed? ==> FateOf(item, lower) == Failed
  {
    if item.Entry? {
      RingExactly(item, lower);
      StripTwice(item.message);
      DefaultHint();
      HintText(OrElse(Strip(item.message), "Try a different approach."));
    }
    hide Strip, NormalizeDelivery, IsRingOnly, ChatHint;
  }

  lemma OneOfFour(item: Item, lower: string -> string)
    ensures IsSpoken(item, lower) || IsHeld(item, lower) || IsIdle(item) || item.Malformed?
    ensures !(IsSpoken(item, lower) && (IsHeld(item, lower) || IsIdle(item)))
  {
    hide Strip, IsRingOnly;
  }

  // ----- One drain -----

  function Spoken(lower: string -> string): Item -> bool {
    item => IsSpoken(item, lower)
  }

  function Unspoken(lower: string -> string): Item -> bool {
    item => !IsSpoken(item, lower)
  }

  predicate EndsDrain(item: Item, lower: string -> string) {
    IsHeld(item, lower) || item.Malformed?
  }

  /** Each delivered item has its own message, in order. */
  predicate SaysEach(delivered: seq<Item>, messages: seq<Message>, lower: string -> string) {
    |messages| == |delivered|
    && forall k :: 0 <= k < |messages| ==>
         IsSpoken(delivered[k], lower) && messages[k] == MessageFor(delivered[k], lower)
  }

  /** Position `n` is that of the first item that ends a drain, or the end of the queue. */
  predicate IsEnd(queue: seq<Item>, n: nat, lower: string -> string) {
    n <= |queue| && (forall i :: 0 <= i < n ==> !EndsDrain(queue[i], lower))
    && (n < |queue| ==> EndsDrain(queue[n], lower))
  }

  /** What a drain that ends at `n` drops, and what it leaves on the queue. */
  function DroppedAt(queue: seq<Item>, n: nat): seq<Item> {
    if n < |queue| && queue[n].Malformed? then [queue[n]] else []
  }

  function LeftAt(queue: seq<Item>, n: nat, lower: string -> string): seq<Item> {
    if n < |queue| then queue[n + 1..] + (if IsHeld(queue[n], lower) then [queue[n]] else []) else []
  }

  ghost predicate IsOutcome(d: Drain, queue: seq<Item>, n: nat, lower: string -> string)
    requires n <= |queue|
  {
    && SaysEach(d.delivered, d.messages, lower)
    && d.delivered == Filter(queue[..n], Spoken(lower))
    && d.discarded == Filter(queue[..n], Unspoken(lower)) + DroppedAt(queue, n)
    && d.queue == LeftAt(queue, n, lower)
  }

  /**
   * A drain says everything that has something to say before the first item it must keep or cannot convert, in order,
   * each as its own message; it drops only what has nothing to say, and that last item if it cannot be converted; and
   * what must be kept goes to the back of the queue.
   */
  lemma {:induction false} DrainExactly(queue: seq<Item>, lower: string -> string) returns (n: nat)
    ensures IsEnd(queue, n, lower) && IsOutcome(Drained(queue, lower), queue, n, lower)
  {
    hide FateOf, IsSpoken, IsHeld, IsIdle, MessageFor, Drained;
    n := 0;
    if queue == [] {
      NothingDrained(lower);
    } else {
      var item, rest := queue[0], queue[1..];
      assert queue == [item] + rest;
      OneOfFour(item, lower);
      if EndsDrain(item, lower) {
        DrainEnds(item, rest, lower);
      } else {
        hide IsOutcome;
        var k := DrainExactly(rest, lower);
        n := k + 1;
        OneMoreTaken(item, rest, k, lower);
      }
    }
  }

  lemma OneMoreTaken(item: Item, rest: seq<Item>, k: nat, lower: string -> string)
    requires (IsSpoken(item, lower) || IsIdle(item)) && k <= |rest| && IsOutcome(Drained(rest, lower), rest, k, lower)
    ensures IsOutcome(Drained([item] + rest, lower), [item] + rest, k + 1, lower)
  {
    hide FateOf, IsSpoken, IsHeld, IsIdle, MessageFor, Drained, Filter, SaysEach, DroppedAt, LeftAt;
    DrainPasses(item, rest, lower);
    SlicesAfterFirst(item, rest, k);
    FilterStep(item, rest[..k], Spoken(lower));
    FilterStep(item, rest[..k], Unspoken(lower));
    SaysOneMore(item, Drained(rest, lower), lower);
    SameEnd(item, rest, k, lower);
    AppendAssoc([item], Filter(rest[..k], Unspoken(lower)), DroppedAt(rest, k));
  }

  lemma SameEnd(item: Item, rest: seq<Item>, k: nat, lower: string -> string)
    requires k <= |rest|
    ensures DroppedAt([item] + rest, k + 1) == DroppedAt(rest, k)
    ensures LeftAt([item] + rest, k + 1, lower) == LeftAt(rest, k, lower)
  {
    hide IsHeld;
    if k < |rest| {
      SlicesAfterFirst(item, rest, k + 1);
    }
  }

  lemma SaysOneMore(item: Item, later: Drain, lower: string -> string)
    requires SaysEach(later.delivered, later.messages, lower)
    ensures IsSpoken(item, lower) ==>
              SaysEach([item] + later.delivered, [MessageFor(item, lower)] + later.messages, lower)
    ensures [] + later.delivered == later.delivered && [] + later.messages == later.messages
    ensures [] + later.discarded == later.discarded
  {
    hide IsSpoken, MessageFor;
  }

  lemma DrainEnds(item: Item, rest: seq<Item>, lower: string -> string)
    requires EndsDrain(item, lower)
    ensures Drained([item] + rest, lower)
         == Drain([], [], if item.Malformed? then [item] else [], rest + if IsHeld(item, lower) then [item] else [])
  {
    FateExactly(item, lower);
    hide FateOf, IsHeld, Drained;
    DrainedStep(item, rest, lower);
    MalformedIsNotHeld(item, lower);
  }

  lemma MalformedIsNotHeld(item: Item, lower: string -> string)
    ensures item.Malformed? ==> !IsHeld(item, lower)
  {
  }

  lemma DrainPasses(item: Item, rest: seq<Item>, lower: string -> string)
    requires IsSpoken(item, lower) || IsIdle(item)
    ensures var d, later := Drained([item] + rest, lower), Drained(rest, lower);
            && d.queue == later.queue
            && d.delivered == (if IsSpoken(item, lower) then [item] else []) + later.delivered
            && d.messages == (if IsSpoken(item, lower) then [MessageFor(item, lower)] else []) + later.messages
            && d.discarded == (if IsSpoken(item, lower) then [] else [item]) + later.discarded
  {
    FateExactly(item, lower);
    OneOfFour(item, lower);
    hide FateOf, IsSpoken, IsHeld, IsIdle, MessageFor, Drained;
    DrainedStep(item, rest, lower);
  }

  /** The directive follows exactly if a dictionary was delivered that shows one of the orchestrator's marks. */
  lemma DirectiveExactly(queue: seq<Item>, lower: string -> string)
    ensures var d := Drained(queue, lower);
            && |d.messages| == |d.delivered|
            && (AnyHint(d.delivered, lower) <==>
                  exists k :: 0 <= k < |d.delivered| && d.delivered[k].Entry?
                      && (Contains(d.messages[k].content, "[ORCHESTRATOR HINT]")
                          || (d.delivered[k].content != ""
                              && Contains(d.delivered[k].content, "[ORCHESTRATOR REVIEW"))))
  {
    hide FateOf, Drained, Contains;
    MessagesMatchItems(queue, lower);
  }
}
