/** Exactly which files and communications are found in a dropped span: nls/agentic/compactor.py. */
module Extraction {
  import opened Sequences
  import opened Text
  import opened Messages
  import opened Compaction

  // ----- Scanning all calls -----

  /** An assistant turn of this history issues the call. */
  predicate IssuedIn(messages: seq<Message>, call: ToolCall) {
    exists i :: 0 <= i < |messages| && messages[i].role == Assistant && call in messages[i].toolCalls
  }

  lemma {:induction false} OverCallsMember(calls: seq<ToolCall>, find: ToolCall -> seq<string>, x: string)
    ensures x in OverCalls(calls, find) <==> exists call :: call in calls && x in find(call)
  {
    if calls != [] {
      var last, earlier := calls[|calls| - 1], calls[..|calls| - 1];
      assert calls == earlier + [last];
      OverCallsMember(earlier, find, x);
    }
  }

  lemma IssuedConcat(left: seq<Message>, last: Message, call: ToolCall)
    ensures IssuedIn(left + [last], call) <==>
              IssuedIn(left, call) || (last.role == Assistant && call in last.toolCalls)
  {
    var all := left + [last];
    assert forall i :: 0 <= i < |left| ==> all[i] == left[i];
    assert all[|left|] == last;
  }

  lemma {:induction false} OverMessagesMember(messages: seq<Message>, find: ToolCall -> seq<string>, x: string)
    ensures x in OverMessages(messages, find) <==> exists call :: IssuedIn(messages, call) && x in find(call)
  {
    if messages != [] {
      var last, earlier := messages[|messages| - 1], messages[..|messages| - 1];
      assert messages == earlier + [last];
      OverMessagesMember(earlier, find, x);
      OverCallsMember(last.toolCalls, find, x);
      forall call
        ensures IssuedIn(messages, call) <==>
                  IssuedIn(earlier, call) || (last.role == Assistant && call in last.toolCalls)
      {
        IssuedConcat(earlier, last, call);
      }
      hide IssuedIn, OverCalls;
    }
  }

  // ----- Results -----

  /** The last tool message with this id, which is not empty, has this body. */
  predicate IsLastResult(messages: seq<Message>, id: string, body: string) {
    id != "" &&
    exists k :: 0 <= k < |messages| && messages[k].role == Tool && messages[k].toolCallId == id
                && messages[k].content == body && NoResultBehind(messages, id, k)
  }

  predicate NoResultBehind(messages: seq<Message>, id: string, k: int) {
    forall j :: k < j < |messages| ==> 0 <= j && (messages[j].role != Tool || messages[j].toolCallId != id)
  }

  lemma {:induction false} ResultsExactly(messages: seq<Message>, id: string, body: string)
    ensures id in ToolResults(messages) && ToolResults(messages)[id] == body <==> IsLastResult(messages, id, body)
  {
    if messages != [] {
      var n := |messages| - 1;
      var last, earlier := messages[n], messages[..n];
      ResultsExactly(earlier, id, body);
      if last.role == Tool && last.toolCallId == id != "" {
        if last.content == body {
          assert NoResultBehind(messages, id, n);
        }
        if IsLastResult(messages, id, body) {
          var k :| 0 <= k < |messages| && messages[k].role == Tool && messages[k].toolCallId == id
                   && messages[k].content == body && NoResultBehind(messages, id, k);
          assert k == n;
        }
      } else if id != "" {
        LastIsOther(messages, id, body);
      }
    }
  }

  lemma LastIsOther(messages: seq<Message>, id: string, body: string)
    requires messages != []
    requires messages[|messages| - 1].role != Tool || messages[|messages| - 1].toolCallId != id
    ensures IsLastResult(messages, id, body) <==> IsLastResult(messages[..|messages| - 1], id, body)
  {
    var n := |messages| - 1;
    var earlier := messages[..n];
    if k :| id != "" && 0 <= k < |messages| && messages[k].role == Tool && messages[k].toolCallId == id
            && messages[k].content == body && NoResultBehind(messages, id, k) {
      assert earlier[k] == messages[k];
      assert NoResultBehind(earlier, id, k);
    }
    if k :| id != "" && 0 <= k < n && earlier[k].role == Tool && earlier[k].toolCallId == id
            && earlier[k].content == body && NoResultBehind(earlier, id, k) {
      forall j | k < j < |messages| ensures 0 <= j && (messages[j].role != Tool || messages[j].toolCallId != id) {
        assert j < n ==> earlier[j] == messages[j];
      }
      assert NoResultBehind(messages, id, k);
    }
  }

  predicate ErrorAt(lowered: string, i: int) {
    0 <= i && i + 5 <= |lowered| && lowered[i..i + 5] == "error"
  }

  /** The word "error" stands within the first fifty characters. */
  ghost predicate SaysError(lowered: string) {
    exists i :: ErrorAt(lowered, i) && i + 5 <= 50
  }

  lemma ErrorsExactly(result: string, scanner: Scanner)
    ensures IsErrorText(result, scanner) <==> SaysError(scanner.lower(result))
  {
    var lowered := scanner.lower(result);
    var n := Min(50, |lowered|);
    var head := lowered[..n];
    TakeAll(lowered);
    assert head == Prefix(lowered, 50);
    hide Prefix;
    if i :| 0 <= i <= |head| && OccursAt(head, "error", i) {
      SliceOfFront(lowered, n, i, i + 5);
      assert ErrorAt(lowered, i);
    }
    if i :| ErrorAt(lowered, i) && i + 5 <= 50 {
      SliceOfFront(lowered, n, i, i + 5);
      ContainsAt(head, i, "error");
    }
  }

  // ----- What is found -----

  /** The call asks for a message to be sent, and its result, being neither empty nor an error, says that it was. */
  ghost predicate WasSent(messages: seq<Message>, call: ToolCall, scanner: Scanner) {
    IssuedIn(messages, call)
    && (call.name == "whatsapp_send" || call.name == "telegram_send" || call.name == "email_send")
    && exists body :: IsLastResult(messages, call.id, body) && body != "" && !SaysError(scanner.lower(body))
  }

  lemma SentExactly(messages: seq<Message>, call: ToolCall, scanner: Scanner, x: string)
    requires IssuedIn(messages, call)
    ensures x in SentByCall(call, ToolResults(messages), scanner) <==>
              WasSent(messages, call, scanner) && x == scanner.describe(call.name, call.arguments)
  {
    var results := ToolResults(messages);
    if call.id in results {
      ResultsExactly(messages, call.id, results[call.id]);
      ErrorsExactly(results[call.id], scanner);
    }
    forall body | IsLastResult(messages, call.id, body) ensures call.id in results && results[call.id] == body {
      ResultsExactly(messages, call.id, body);
    }
    hide IsErrorText, IsLastResult, SaysError, IssuedIn, ToolResults;
  }

  /** A communication is found exactly if some turn sent it and the last result for that call does not deny it. */
  lemma CommunicationsExactly(messages: seq<Message>, scanner: Scanner, x: string)
    ensures x in CommunicationsSent(messages, scanner) <==>
              exists call :: WasSent(messages, call, scanner) && x == scanner.describe(call.name, call.arguments)
  {
    var results := ToolResults(messages);
    hide SentByCall, WasSent, IssuedIn, ToolResults;
    OverMessagesMember(messages, Sends(results, scanner), x);
    forall call | IssuedIn(messages, call)
      ensures x in Sends(results, scanner)(call) <==>
                WasSent(messages, call, scanner) && x == scanner.describe(call.name, call.arguments)
    {
      SentExactly(messages, call, scanner, x);
    }
    forall call | WasSent(messages, call, scanner) ensures IssuedIn(messages, call) {
      SentIsIssued(messages, call, scanner);
    }
  }

  lemma SentIsIssued(messages: seq<Message>, call: ToolCall, scanner: Scanner)
    requires WasSent(messages, call, scanner)
    ensures IssuedIn(messages, call)
  {
  }

  /** A file counts as read exactly if some turn reads it, whatever came back. */
  lemma ReadsExactly(messages: seq<Message>, scanner: Scanner, x: string)
    ensures x in FilesRead(messages, scanner) <==>
              exists call :: IssuedIn(messages, call) && call.name == "read"
                  && scanner.readPath(call.arguments) == Some(x)
  {
    hide IssuedIn;
    OverMessagesMember(messages, Reads(scanner), x);
    assert forall call :: x in Reads(scanner)(call) <==>
        call.name == "read" && scanner.readPath(call.arguments) == Some(x);
  }

  /** And as modified exactly if some turn writes or edits it. */
  lemma WritesExactly(messages: seq<Message>, scanner: Scanner, x: string)
    ensures x in FilesModified(messages, scanner) <==>
              exists call :: IssuedIn(messages, call) && (call.name == "write" || call.name == "edit")
                  && scanner.writtenPath(call.arguments) == Some(x)
  {
    hide IssuedIn;
    OverMessagesMember(messages, Modifies(scanner), x);
    assert forall call :: x in Modifies(scanner)(call) <==>
        (call.name == "write" || call.name == "edit") && scanner.writtenPath(call.arguments) == Some(x);
  }
}
