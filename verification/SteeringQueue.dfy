/** Draining the steering queue of a running agent: nls/agentic/bridge.py and nls/agentic/orchestrator_hint.py. */
module SteeringQueue {
  import opened Sequences
  import opened Text
  import opened Messages

  /**
   * What producers put on the queue: a string, a dictionary (absent content is ""), a dictionary without content whose
   * conversion raises, say for a message that is no text, or anything else.
   */
  datatype Item =
    | Line(text: string)
    | Entry(role: Role, content: string, action: Option<string>, delivery: Option<string>, message: string)
    | Malformed(tag: int)
    | Foreign(tag: int)

  // ----- Converting interventions -----

  datatype Delivery = Both | Ring

  function NormalizeDelivery(delivery: Option<string>, lower: string -> string): Option<Delivery> {
    if delivery.None? || Strip(delivery.value) == "" then Some(Both)
    else
      var mode := lower(Strip(delivery.value));
      if mode == "both" then Some(Both) else if mode == "ring" then Some(Ring) else None
  }

  const HINT_MARK := "[ORCHESTRATOR HINT]"
  const REVIEW_MARK := "[ORCHESTRATOR REVIEW"
  const HINT_MAX := 4000

  function ChatHint(message: string): Message {
    var text := Strip(message);
    UserMessage(HINT_MARK + " " + (if |text| > HINT_MAX then text[..HINT_MAX] + "..." else text))
  }

  /** The chat message an intervention becomes; none when it must stay on the queue for a blocking wait. */
  function Converted(action: string, delivery: Option<string>, message: string,
                     lower: string -> string): Option<Message> {
    if NormalizeDelivery(delivery, lower) == Some(Ring) then None
    else
      var text := Strip(message);
      if action == "hint" then Some(ChatHint(if text != "" then text else "Try a different approach."))
      else if action == "extend" then
        Some(UserMessage("[ORCHESTRATOR] " + (if text != "" then text else "Iteration budget extended.")))
      else None
  }

  // ----- What becomes of an item -----

  datatype Fate = Delivered(m: Message) | Discarded | Returned | Failed

  function FateOf(item: Item, lower: string -> string): Fate {
    match item
    case Line(text) => if Strip(text) != "" then Delivered(UserMessage(text)) else Discarded
    case Entry(role, content, action, delivery, message) =>
      if content != "" then Delivered(Message(role, content, [], ""))
      else if action.None? then Discarded
      else
        (match Converted(action.value, delivery, message, lower)
         case Some(m) => Delivered(m)
         case None => Returned)
    case Malformed(_) => Failed
    case Foreign(_) => Discarded
  }

  /** Whether delivering the item asks the agent to reassess. */
  predicate CarriesHint(item: Item, lower: string -> string) {
    item.Entry? && FateOf(item, lower).Delivered? &&
    (Contains(FateOf(item, lower).m.content, HINT_MARK) || (item.content != "" && Contains(item.content, REVIEW_MARK)))
  }

  const DIRECTIVE := SystemMessage(
    "⚠ ORCHESTRATOR DIRECTIVE RECEIVED.\nSTOP what you are doing. Read the orchestrator's message above carefully. "
    + "REASSESS your current approach in light of this new guidance. Then adjust your plan and continue "
    + "with the corrected approach.\nDo NOT continue your previous chain of thought as if nothing happened.")

  // ----- One drain -----

  datatype Drain = Drain(delivered: seq<Item>, messages: seq<Message>, discarded: seq<Item>, queue: seq<Item>)

  /** Items are taken from the front until one must be returned, which goes to the back, or one fails, which is lost. */
  function Drained(queue: seq<Item>, lower: string -> string): Drain {
    if queue == [] then Drain([], [], [], [])
    else
      var item, fate := queue[0], FateOf(queue[0], lower);
      if fate.Returned? then Drain([], [], [], queue[1..] + [item])
      else if fate.Failed? then Drain([], [], [item], queue[1..])
      else
        var rest := Drained(queue[1..], lower);
        if fate.Delivered? then rest.(delivered := [item] + rest.delivered, messages := [fate.m] + rest.messages)
        else rest.(discarded := [item] + rest.discarded)
  }

  predicate AnyHint(items: seq<Item>, lower: string -> string) {
    exists i :: 0 <= i < |items| && CarriesHint(items[i], lower)
  }

  class Queue {
    var items: seq<Item>

    constructor ()
      ensures items == []
    {
      items := [];
    }

    predicate Empty()
      reads this
    {
      items == []
    }

    method PutNowait(item: Item)
      modifies this
      ensures items == old(items) + [item]
    {
      items := items + [item];
    }

    method GetNowait() returns (item: Item)
      requires !Empty()
      modifies this
      ensures [item] + items == old(items)
    {
      item := items[0];
      items := items[1..];
    }
  }

  lemma DrainedStep(item: Item, rest: seq<Item>, lower: string -> string)
    ensures Drained([item] + rest, lower) ==
              var fate, later := FateOf(item, lower), Drained(rest, lower);
              if fate.Returned? then Drain([], [], [], rest + [item])
              else if fate.Failed? then Drain([], [], [item], rest)
              else if fate.Delivered? then later.(delivered := [item] + later.delivered,
                  messages := [fate.m] + later.messages)
              else later.(discarded := [item] + later.discarded)
  {
    assert ([item] + rest)[1..] == rest;
  }

  /** Takes items until the queue is empty or one of them ends the drain. */
  method DrainQueue(q: Queue, surface: seq<Message>, lower: string -> string)
      returns (messages: seq<Message>, hasHint: bool)
    modifies q
    ensures var d := Drained(old(q.items), lower);
            q.items == d.queue && messages == surface + d.messages && (hasHint <==> AnyHint(d.delivered, lower))
  {
    hide FateOf, CarriesHint, Drained, AnyHint;
    NothingHinted(lower);
    NothingDrained(lower);
    messages, hasHint := surface, false;
    ghost var all := Drained(q.items, lower);
    ghost var taken: seq<Message>, delivered: seq<Item> := [], [];
    while !q.Empty()
      invariant messages == surface + taken
      invariant taken + Drained(q.items, lower).messages == all.messages
      invariant delivered + Drained(q.items, lower).delivered == all.delivered
      invariant Drained(q.items, lower).queue == all.queue
      invariant hasHint <==> AnyHint(delivered, lower)
      decreases |q.items|
    {
      var item := q.GetNowait();
      DrainedStep(item, q.items, lower);
      var fate := FateOf(item, lower);
      ghost var later := Drained(q.items, lower);
      if fate.Delivered? {
        AppendAssoc(surface, taken, [fate.m]);
        AppendAssoc(taken, [fate.m], later.messages);
        AppendAssoc(delivered, [item], later.delivered);
        AnyHintSnoc(delivered, item, lower);
        messages, taken, delivered := messages + [fate.m], taken + [fate.m], delivered + [item];
        if CarriesHint(item, lower) {
          hasHint := true;
        }
      } else if fate.Returned? || fate.Failed? {
        if fate.Returned? {
          q.PutNowait(item);
        }
        assert taken + [] == taken && delivered + [] == delivered;
        return;
      }
    }
    assert taken + [] == taken && delivered + [] == delivered;
  }

  /** The non-blocking drain run between iterations; `surface` are messages from the surface inbox. */
  method GetSteeringMessages(q: Queue?, surface: seq<Message>, lower: string -> string) returns (messages: seq<Message>)
    modifies q
    ensures q == null ==> messages == surface
    ensures q != null ==>
              var d := Drained(old(q.items), lower);
              && q.items == d.queue
              && messages == surface + d.messages + (if AnyHint(d.delivered, lower) then [DIRECTIVE] else [])
  {
    hide Drained, AnyHint;
    if q == null {
      return surface;
    }
    var hasHint;
    messages, hasHint := DrainQueue(q, surface, lower);
    if hasHint {
      messages := messages + [DIRECTIVE];
    }
  }

  lemma NothingHinted(lower: string -> string)
    ensures !AnyHint([], lower)
  {
  }

  lemma AnyHintSnoc(items: seq<Item>, item: Item, lower: string -> string)
    ensures AnyHint(items + [item], lower) <==> AnyHint(items, lower) || CarriesHint(item, lower)
  {
    hide CarriesHint;
    var all := items + [item];
    assert all[|items|] == item && forall i :: 0 <= i < |items| ==> all[i] == items[i];
  }

  // ----- What one drain keeps -----

  lemma NothingDrained(lower: string -> string)
    ensures Drained([], lower) == Drain([], [], [], [])
  {
  }

  /** Every item that was on the queue was delivered, discarded, or is on the queue again: none is lost or doubled. */
  lemma {:induction false} DrainConserves(queue: seq<Item>, lower: string -> string)
    ensures var d := Drained(queue, lower);
            multiset(queue) == multiset(d.delivered) + multiset(d.discarded) + multiset(d.queue)
  {
    hide FateOf, Drained;
    if queue == [] {
      NothingDrained(lower);
    } else {
      var item, rest := queue[0], queue[1..];
      assert queue == [item] + rest;
      DrainedStep(item, rest, lower);
      DrainConserves(rest, lower);
    }
  }

  predicate IsDeliverable(item: Item, lower: string -> string) {
    FateOf(item, lower).Delivered?
  }

  predicate IsReturned(item: Item, lower: string -> string) {
    FateOf(item, lower).Returned?
  }

  /** The item ends a drain. */
  predicate Stops(item: Item, lower: string -> string) {
    FateOf(item, lower).Returned? || FateOf(item, lower).Failed?
  }

  function Deliverables(items: seq<Item>, lower: string -> string): seq<Item> {
    if items == [] then []
    else if IsDeliverable(items[0], lower) then [items[0]] + Deliverables(items[1..], lower)
    else Deliverables(items[1..], lower)
  }

  function ReturnedItems(items: seq<Item>, lower: string -> string): seq<Item> {
    if items == [] then []
    else if IsReturned(items[0], lower) then [items[0]] + ReturnedItems(items[1..], lower)
    else ReturnedItems(items[1..], lower)
  }

  function StopCount(items: seq<Item>, lower: string -> string): nat {
    if items == [] then 0 else StopCount(items[1..], lower) + if Stops(items[0], lower) then 1 else 0
  }

  /**
   * A drain takes the items before the first that stops it, in order; if that one must be returned it moves to the
   * back.
   */
  lemma {:induction false} DrainStopsAtFirstReturned(queue: seq<Item>, lower: string -> string) returns (n: nat)
    ensures n <= |queue| && forall i :: 0 <= i < n ==> !Stops(queue[i], lower)
    ensures Drained(queue, lower).delivered == Deliverables(queue[..n], lower)
    ensures if n == |queue| then Drained(queue, lower).queue == []
            else Stops(queue[n], lower)
                 && Drained(queue, lower).queue
                     == queue[n + 1..] + if IsReturned(queue[n], lower) then [queue[n]] else []
  {
    hide FateOf;
    if queue == [] || Stops(queue[0], lower) {
      n := 0;
    } else {
      var k := DrainStopsAtFirstReturned(queue[1..], lower);
      n := k + 1;
      assert queue[..n][1..] == queue[1..][..k];
    }
  }

  /** Each delivered item contributes its own message, in queue order. */
  lemma {:induction false} MessagesMatchItems(queue: seq<Item>, lower: string -> string)
    ensures var d := Drained(queue, lower);
            |d.messages| == |d.delivered| &&
            forall i :: 0 <= i < |d.messages| ==> FateOf(d.delivered[i], lower) == Delivered(d.messages[i])
  {
    hide FateOf;
    if queue != [] {
      MessagesMatchItems(queue[1..], lower);
    }
  }

  /** A hint that is not confined to the ring always makes the drain append the directive. */
  lemma HintsAreHeard(item: Item, lower: string -> string)
    requires item.Entry? && item.content == "" && item.action == Some("hint")
    requires NormalizeDelivery(item.delivery, lower) != Some(Ring)
    ensures CarriesHint(item, lower)
  {
    var m := FateOf(item, lower).m;
    ContainsAt(m.content, 0, HINT_MARK);
  }

  // ----- Several drains -----

  /** The outcome of `n` drains with nothing arriving in between. */
  function DrainedTimes(queue: seq<Item>, n: nat, lower: string -> string): Drain
    decreases n
  {
    if n == 0 then Drain([], [], [], queue)
    else
      var first := Drained(queue, lower);
      var rest := DrainedTimes(first.queue, n - 1, lower);
      Drain(first.delivered + rest.delivered, first.messages + rest.messages, first.discarded + rest.discarded,
          rest.queue)
  }

  function Rotated(items: seq<Item>): seq<Item> {
    if items == [] then [] else items[1..] + [items[0]]
  }

  /** What happens to the items waiting in front of those returned before; `rest` are those still waiting afterwards. */
  lemma {:induction false} DrainFront(waiting: seq<Item>, returned: seq<Item>, lower: string -> string)
    returns (rest: seq<Item>, back: seq<Item>)
    requires forall i :: 0 <= i < |returned| ==> IsReturned(returned[i], lower)
    ensures var d := Drained(waiting + returned, lower);
            if StopCount(waiting, lower) == 0 then
              d.delivered == Deliverables(waiting, lower) && d.queue == Rotated(returned)
                  && ReturnedItems(waiting, lower) == []
            else
              && |rest| < |waiting| && |back| <= 1 && (forall i :: 0 <= i < |back| ==> IsReturned(back[i], lower))
              && d.queue == rest + (returned + back) && StopCount(waiting, lower) == StopCount(rest, lower) + 1
              && ReturnedItems(waiting, lower) == back + ReturnedItems(rest, lower)
              && d.delivered + Deliverables(rest, lower) == Deliverables(waiting, lower)
  {
    hide FateOf;
    rest, back := [], [];
    if waiting == [] {
      assert waiting + returned == returned;
    } else {
      var item, tail := waiting[0], waiting[1..];
      assert waiting + returned == [item] + (tail + returned);
      DrainedStep(item, tail + returned, lower);
      if Stops(item, lower) {
        rest, back := tail, if IsReturned(item, lower) then [item] else [];
        AppendAssoc(tail, returned, back);
        assert [] + Deliverables(rest, lower) == Deliverables(rest, lower);
        assert [] + ReturnedItems(rest, lower) == ReturnedItems(rest, lower);
        assert (tail + returned) + [] == tail + returned;
      } else {
        rest, back := DrainFront(tail, returned, lower);
        AppendAssoc([item], Drained(tail + returned, lower).delivered, Deliverables(rest, lower));
      }
    }
  }

  lemma DrainedTimesStep(queue: seq<Item>, n: nat, lower: string -> string)
    ensures var first := Drained(queue, lower);
            var rest := DrainedTimes(first.queue, n, lower);
            DrainedTimes(queue, n + 1, lower).delivered == first.delivered + rest.delivered
            && DrainedTimes(queue, n + 1, lower).queue == rest.queue
    ensures DrainedTimes(queue, 0, lower) == Drain([], [], [], queue)
  {
    hide Drained;
  }

  lemma {:induction false} DrainsFrom(waiting: seq<Item>, returned: seq<Item>, lower: string -> string)
    requires forall i :: 0 <= i < |returned| ==> IsReturned(returned[i], lower)
    ensures var d := DrainedTimes(waiting + returned, StopCount(waiting, lower) + 1, lower);
            d.delivered == Deliverables(waiting, lower) && d.queue == Rotated(returned + ReturnedItems(waiting, lower))
    decreases |waiting|
  {
    hide IsReturned, Drained, Deliverables, ReturnedItems, DrainedTimes, Rotated, StopCount;
    var n := StopCount(waiting, lower);
    var first := Drained(waiting + returned, lower);
    var rest, back := DrainFront(waiting, returned, lower);
    DrainedTimesStep(waiting + returned, n, lower);
    DrainedTimesStep(first.queue, 0, lower);
    if n == 0 {
      assert first.delivered + [] == first.delivered;
      assert returned + [] == returned;
    } else {
      DrainsFrom(rest, returned + back, lower);
      AppendAssoc(returned, back, ReturnedItems(rest, lower));
    }
  }

  /**
   * One drain more than there are items that stop a drain delivers every deliverable item, in order, and leaves exactly
   * the items to return, rotated once.
   */
  lemma DrainsDeliverEverything(queue: seq<Item>, lower: string -> string)
    ensures var d := DrainedTimes(queue, StopCount(queue, lower) + 1, lower);
            d.delivered == Deliverables(queue, lower) && d.queue == Rotated(ReturnedItems(queue, lower))
  {
    DrainsFrom(queue, [], lower);
    assert queue + [] == queue && [] + ReturnedItems(queue, lower) == ReturnedItems(queue, lower);
  }
}
