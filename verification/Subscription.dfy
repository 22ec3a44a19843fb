/** One DWN subscription: cursor-checked frames, and the reconnect loop around them. */
module Subscription {
  import opened Options
  import opened Decimal

  // ---- progress tokens -----------------------------------------------------------------

  datatype Token = Token(streamId: string, epoch: string, position: string, messageCid: string)

  predicate ValidToken(t: Token) {
    t.streamId != "" && t.epoch != "" && Normalized(t.position).Some?
  }

  predicate ShouldReplace(current: Option<Token>, candidate: Token) {
    ValidToken(candidate) &&
    (current.None? ||
     (candidate.streamId == current.value.streamId && candidate.epoch == current.value.epoch
      && Compare(candidate.position, current.value.position) > 0))
  }

  predicate SameLog(a: Token, b: Token) {
    a.streamId == b.streamId && a.epoch == b.epoch
  }

  function Pos(t: Token): nat
    requires ValidToken(t)
  {
    Value(t.position)
  }

  /** A replacement never moves a cursor backwards, and never to another stream or epoch. */
  lemma ReplaceOnlyAdvances(current: Token, candidate: Token)
    requires ValidToken(current) && ValidToken(candidate)
    ensures ShouldReplace(Some(current), candidate) <==> SameLog(current, candidate) && Pos(current) < Pos(candidate)
  {
    CompareIsNumeric(candidate.position, current.position);
  }

  // ---- frames --------------------------------------------------------------------------

  datatype Kind = Event | Eose | Error | Unknown

  /** `hasBody`: an event carries a non-empty record message. `hasError`: error details are present. */
  datatype Message = Message(kind: Kind, cursor: Option<Token>, hasBody: bool, hasError: bool)

  datatype Frame = Garbage | Foreign | RpcError | Empty | Carries(message: Message)

  /** How a connection attempt ends. */
  datatype Fault = Plain | Gap | Terminal

  predicate ValidMessage(m: Message) {
    && m.cursor.Some? && ValidToken(m.cursor.value)
    && (m.kind == Event ==> m.hasBody)
    && (m.kind == Error ==> m.hasError)
    && m.kind != Unknown
  }

  /** validateCursorProgression: within one stream and epoch, forward only; EOSE may repeat. */
  predicate Progresses(cursor: Option<Token>, m: Message)
    requires ValidMessage(m)
  {
    cursor.None? ||
    (SameLog(cursor.value, m.cursor.value)
     && var c := Compare(m.cursor.value.position, cursor.value.position);
        c > 0 || (c == 0 && m.kind == Eose))
  }

  function Remember(cursor: Option<Token>, t: Token): Option<Token> {
    if ShouldReplace(cursor, t) then Some(t) else cursor
  }

  /** What one frame does: the new cursor, the message handed to the handler (if any), and
      the fault that ends the connection (if any). */
  datatype Handled = Handled(cursor: Option<Token>, handed: Option<Message>, fault: Option<Fault>)

  function HandleFrame(cursor: Option<Token>, frame: Frame, handlerOk: bool, ackOk: bool): Handled {
    match frame
    case Garbage => Handled(cursor, None, Some(Plain))
    case Foreign => Handled(cursor, None, None)
    case RpcError => Handled(cursor, None, Some(Plain))
    case Empty => Handled(cursor, None, Some(Plain))
    case Carries(m) =>
      if !ValidMessage(m) then Handled(cursor, None, Some(Plain))
      else if !Progresses(cursor, m) then Handled(cursor, None, Some(Gap))
      else if !handlerOk then Handled(cursor, Some(m), Some(Plain))
      else Handled(Remember(cursor, m.cursor.value), Some(m),
                   if m.kind == Error then Some(Terminal) else if ackOk then None else Some(Plain))
  }

  /** A message is handed over exactly when it is well formed and progresses: an event with a body, an
      end marker, or an error with details, at a decimal position of a named stream and epoch. */
  lemma HandedMeans(cursor: Option<Token>, m: Message, handlerOk: bool, ackOk: bool)
    ensures HandleFrame(cursor, Carries(m), handlerOk, ackOk).handed.Some? <==>
              && m.cursor.Some? && m.cursor.value.streamId != "" && m.cursor.value.epoch != ""
              && IsDecimal(m.cursor.value.position)
              && ((m.kind == Event && m.hasBody) || m.kind == Eose || (m.kind == Error && m.hasError))
              && Progresses(cursor, m)
  {
    hide Compare, Progresses, Remember;
  }

  /** How a frame ends the connection: in a gap exactly when a well-formed message does not progress,
      for good exactly after an accepted error message, and otherwise when it cannot be used, its
      handler fails or it cannot be acknowledged. */
  lemma FrameEnds(cursor: Option<Token>, frame: Frame, handlerOk: bool, ackOk: bool)
    ensures var fault := HandleFrame(cursor, frame, handlerOk, ackOk).fault;
            && (fault == Some(Gap) <==> frame.Carries? && ValidMessage(frame.message) && !Progresses(cursor, frame.message))
            && (fault == Some(Terminal) <==>
                  && frame.Carries? && ValidMessage(frame.message) && Progresses(cursor, frame.message)
                  && frame.message.kind == Error && handlerOk)
            && (fault == None <==>
                  || frame == Foreign
                  || (&& frame.Carries? && ValidMessage(frame.message) && Progresses(cursor, frame.message)
                      && frame.message.kind != Error && handlerOk && ackOk))
  {
    hide Compare, Progresses, Remember, ValidMessage;
  }

  // ---- cursor safety over whole runs ---------------------------------------------------

  datatype Happening = Arrives(frame: Frame, handlerOk: bool, ackOk: bool) | Clears

  function CursorAfter(hs: seq<Happening>, n: nat): Option<Token>
    requires n <= |hs|
  {
    if n == 0 then None
    else match hs[n - 1]
      case Clears => None
      case Arrives(frame, handlerOk, ackOk) => HandleFrame(CursorAfter(hs, n - 1), frame, handlerOk, ackOk).cursor
  }

  /** Step `k` hands a message to the handler. */
  predicate Hands(hs: seq<Happening>, k: nat) {
    && k < |hs| && hs[k].Arrives?
    && HandleFrame(CursorAfter(hs, k), hs[k].frame, hs[k].handlerOk, hs[k].ackOk).handed.Some?
  }

  /** Step `k` hands over a message and the handler succeeds. */
  predicate Accepts(hs: seq<Happening>, k: nat) {
    Hands(hs, k) && hs[k].handlerOk
  }

  function TokenAt(hs: seq<Happening>, k: nat): (t: Token)
    requires Hands(hs, k)
    ensures ValidToken(t)
  {
    hs[k].frame.message.cursor.value
  }

  /** Step `k` is the last accepted message since the last clear, `n` steps in. */
  predicate LastAccepted(hs: seq<Happening>, n: nat, k: nat)
    requires n <= |hs|
  {
    && k < n && Accepts(hs, k)
    && forall i :: k < i < n ==> !hs[i].Clears? && !Accepts(hs, i)
  }

  predicate NoneAccepted(hs: seq<Happening>, n: nat)
    requires n <= |hs|
  {
    forall k :: 0 <= k < n && Accepts(hs, k) ==> exists c :: k < c < n && hs[c].Clears?
  }

  lemma RememberIsLatest(cursor: Option<Token>, m: Message)
    requires ValidMessage(m) && Progresses(cursor, m)
    requires cursor.Some? ==> ValidToken(cursor.value)
    ensures var after := Remember(cursor, m.cursor.value);
            && after.Some? && ValidToken(after.value)
            && SameLog(after.value, m.cursor.value) && Pos(after.value) == Pos(m.cursor.value)
    ensures cursor.Some? ==>
              && SameLog(cursor.value, m.cursor.value)
              && (Pos(cursor.value) < Pos(m.cursor.value)
                  || (m.kind == Eose && Pos(cursor.value) == Pos(m.cursor.value)))
  {
    hide Compare;
    if cursor.Some? {
      CompareIsNumeric(m.cursor.value.position, cursor.value.position);
    }
  }

  /** The stored cursor is always the position of the last message, since the last clear, whose
      handler returned success: never beyond it, never behind it, absent when there is none. */
  lemma {:induction false} CursorIsLastAccepted(hs: seq<Happening>, n: nat) returns (k: nat)
    requires n <= |hs|
    ensures CursorAfter(hs, n).None? ==> NoneAccepted(hs, n)
    ensures CursorAfter(hs, n).Some? ==>
              && LastAccepted(hs, n, k)
              && ValidToken(CursorAfter(hs, n).value)
              && SameLog(CursorAfter(hs, n).value, TokenAt(hs, k))
              && Pos(CursorAfter(hs, n).value) == Pos(TokenAt(hs, k))
  {
    hide Compare, ShouldReplace, Progresses;
    k := 0;
    if n > 0 {
      k := CursorIsLastAccepted(hs, n - 1);
      var h := hs[n - 1];
      if h.Clears? {
        forall i | 0 <= i < n && Accepts(hs, i)
          ensures exists c :: i < c < n && hs[c].Clears?
        {
          assert hs[n - 1].Clears?;
        }
      } else if Accepts(hs, n - 1) {
        RememberIsLatest(CursorAfter(hs, n - 1), h.frame.message);
        k := n - 1;
      } else if CursorAfter(hs, n - 1).None? {
        forall i | 0 <= i < n && Accepts(hs, i)
          ensures exists c :: i < c < n && hs[c].Clears?
        {
          assert i < n - 1;
        }
      }
    }
  }

  /** Between clears, whatever is handed over after an accepted message comes from the same
      stream and epoch and lies strictly beyond it; only an end-of-stored-events marker may
      repeat its position. */
  lemma {:induction false} HandedAfterAccepted(hs: seq<Happening>, i: nat, j: nat)
    requires i < j && Accepts(hs, i) && Hands(hs, j)
    requires forall c :: i < c < j ==> !hs[c].Clears?
    ensures SameLog(TokenAt(hs, i), TokenAt(hs, j))
    ensures Pos(TokenAt(hs, i)) <= Pos(TokenAt(hs, j))
    ensures Pos(TokenAt(hs, i)) == Pos(TokenAt(hs, j)) ==> hs[j].frame.message.kind == Eose
    decreases j
  {
    hide Compare, ShouldReplace, Progresses, CursorAfter;
    var k := CursorIsLastAccepted(hs, j);
    assert CursorAfter(hs, j).Some?;
    assert i <= k;
    RememberIsLatest(CursorAfter(hs, j), hs[j].frame.message);
    if i < k {
      HandedAfterAccepted(hs, i, k);
    }
  }

  /** Handed-over positions alone need not increase: after a handler failure the server replays
      from the stored cursor. OrderIff below says exactly when they do. */
  lemma RedeliveryGoesBack()
    ensures exists hs: seq<Happening>, i: nat, j: nat ::
              && i < j && Hands(hs, i) && Hands(hs, j) && !Accepts(hs, i)
              && (forall c :: i < c < j ==> !hs[c].Clears?)
              && Pos(TokenAt(hs, j)) < Pos(TokenAt(hs, i))
  {
    var late := Message(Event, Some(Token("s", "e", "2", "")), true, false);
    var early := Message(Event, Some(Token("s", "e", "1", "")), true, false);
    var hs := [Arrives(Carries(late), false, true), Arrives(Carries(early), true, true)];
    assert IsDecimal("2") && IsDecimal("1");
    assert Value("2") == 2 && Value("1") == 1;
    assert CursorAfter(hs, 0) == None;
    assert CursorAfter(hs, 1) == None;
    assert Hands(hs, 0) && Hands(hs, 1);
    assert Pos(TokenAt(hs, 1)) < Pos(TokenAt(hs, 0));
  }

  lemma {:induction false} CursorIgnoresLater(hs: seq<Happening>, more: seq<Happening>, n: nat)
    requires n <= |hs|
    ensures CursorAfter(hs + more, n) == CursorAfter(hs, n)
  {
    hide HandleFrame;
    if n > 0 {
      CursorIgnoresLater(hs, more, n - 1);
    }
  }

  /** What is handed over at `j` follows what was handed over at `i`: same log, and beyond it, or an
      end-of-stored-events marker at the same position. */
  predicate Follows(hs: seq<Happening>, i: nat, j: nat)
    requires Hands(hs, i) && Hands(hs, j)
  {
    && SameLog(TokenAt(hs, i), TokenAt(hs, j))
    && Pos(TokenAt(hs, i)) <= Pos(TokenAt(hs, j))
    && (Pos(TokenAt(hs, i)) == Pos(TokenAt(hs, j)) ==> hs[j].frame.message.kind == Eose)
  }

  /** If `hs` goes on with `more` and hands over at `j` before any clear, that follows step `i`. */
  predicate GoesOnInOrder(hs: seq<Happening>, more: seq<Happening>, i: nat, j: nat) {
    var all := hs + more;
    i < j < |all| && (forall c :: i < c < j ==> !all[c].Clears?) && Hands(all, i) && Hands(all, j) ==> Follows(all, i, j)
  }

  /** The cursor stands at the position of what is handed over at `i`. */
  predicate RepeatsCursor(hs: seq<Happening>, i: nat)
    requires Hands(hs, i)
  {
    var c := CursorAfter(hs, i);
    c.Some? && ValidToken(c.value) && Pos(c.value) == Pos(TokenAt(hs, i))
  }

  lemma HandsStays(hs: seq<Happening>, more: seq<Happening>, k: nat)
    requires k < |hs|
    ensures Hands(hs + more, k) <==> Hands(hs, k)
    ensures CursorAfter(hs + more, k) == CursorAfter(hs, k)
  {
    hide HandleFrame, CursorAfter;
    CursorIgnoresLater(hs, more, k);
    assert (hs + more)[k] == hs[k];
  }

  lemma RepeatIsFollowed(hs: seq<Happening>, i: nat, j: nat)
    requires i < j && Hands(hs, i) && Hands(hs, j) && RepeatsCursor(hs, i)
    requires forall c :: i < c < j ==> !hs[c].Clears?
    ensures Follows(hs, i, j)
  {
    hide Compare, ShouldReplace, Progresses, CursorAfter;
    var k := CursorIsLastAccepted(hs, i);
    RememberIsLatest(CursorAfter(hs, i), hs[i].frame.message);
    assert forall c :: k < c < j ==> !hs[c].Clears?;
    HandedAfterAccepted(hs, k, j);
  }

  /** The same token again, as an event. */
  function Again(hs: seq<Happening>, i: nat): Happening
    requires Hands(hs, i)
  {
    Arrives(Carries(Message(Event, Some(TokenAt(hs, i)), true, false)), true, true)
  }

  lemma FailedIsHandedAgain(hs: seq<Happening>, i: nat)
    requires i + 1 == |hs| && Hands(hs, i) && !hs[i].handlerOk && !RepeatsCursor(hs, i)
    ensures !GoesOnInOrder(hs, [Again(hs, i)], i, i + 1)
  {
    hide Compare, ShouldReplace;
    var all := hs + [Again(hs, i)];
    HandsStays(hs, [Again(hs, i)], i);
    assert all[i] == hs[i] && all[i + 1] == Again(hs, i);
    assert CursorAfter(all, i + 1) == CursorAfter(hs, i);
    var k := CursorIsLastAccepted(hs, i);
    RememberIsLatest(CursorAfter(hs, i), hs[i].frame.message);
    AgainProgresses(CursorAfter(hs, i), hs[i].frame.message);
    assert Hands(all, i + 1);
  }

  lemma AgainProgresses(cursor: Option<Token>, m: Message)
    requires ValidMessage(m) && Progresses(cursor, m)
    requires cursor.Some? ==> ValidToken(cursor.value) && Pos(cursor.value) != Pos(m.cursor.value)
    ensures Progresses(cursor, Message(Event, m.cursor, true, false))
  {
    hide Compare;
    if cursor.Some? {
      CompareIsNumeric(m.cursor.value.position, cursor.value.position);
    }
  }

  /** Everything that may be handed over after step `i`, before the next clear, follows it if and
      only if its handler succeeded or it only repeated the cursor's position. */
  lemma OrderIff(hs: seq<Happening>, i: nat)
    requires i + 1 == |hs| && Hands(hs, i)
    ensures (forall more: seq<Happening>, j: nat :: GoesOnInOrder(hs, more, i, j)) <==> Accepts(hs, i) || RepeatsCursor(hs, i)
  {
    hide HandleFrame, CursorAfter, Follows;
    if hs[i].handlerOk || RepeatsCursor(hs, i) {
      forall more: seq<Happening>, j: nat
        ensures GoesOnInOrder(hs, more, i, j)
      {
        StaysInOrder(hs, more, i, j);
      }
    } else {
      FailedIsHandedAgain(hs, i);
    }
  }

  lemma StaysInOrder(hs: seq<Happening>, more: seq<Happening>, i: nat, j: nat)
    requires i < |hs| && Hands(hs, i) && (hs[i].handlerOk || RepeatsCursor(hs, i))
    ensures GoesOnInOrder(hs, more, i, j)
  {
    hide HandleFrame, CursorAfter;
    var all := hs + more;
    HandsStays(hs, more, i);
    assert all[i] == hs[i];
    if i < j < |all| && (forall c :: i < c < j ==> !all[c].Clears?) && Hands(all, j) {
      if hs[i].handlerOk {
        HandedAfterAccepted(all, i, j);
      } else {
        RepeatIsFollowed(all, i, j);
      }
    }
  }
}
