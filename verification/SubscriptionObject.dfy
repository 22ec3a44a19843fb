/** The subscription object on the heap. Tokens and messages are mutable objects that the
    event handler may change; the stored cursor is a private copy. */
module SubscriptionObject {
  import opened Options
  import opened Decimal
  import opened Subscription

  class ProgressToken {
    var streamId: string
    var epoch: string
    var position: string
    var messageCid: string

    ghost function View(): Token
      reads this
    {
      Token(streamId, epoch, position, messageCid)
    }

    constructor (streamId: string, epoch: string, position: string, messageCid: string)
      ensures View() == Token(streamId, epoch, position, messageCid)
    {
      this.streamId, this.epoch, this.position, this.messageCid := streamId, epoch, position, messageCid;
    }

    method Clone() returns (copy: ProgressToken)
      ensures fresh(copy) && copy.View() == View()
    {
      copy := new ProgressToken(streamId, epoch, position, messageCid);
    }

    method Valid() returns (ok: bool)
      ensures ok == ValidToken(View())
    {
      if streamId == "" || epoch == "" {
        return false;
      }
      var normal := NormalizedDecimalPosition(position);
      return normal.Some?;
    }
  }

  class SubscriptionMessage {
    var kind: Kind
    var cursor: ProgressToken?
    var hasBody: bool
    var hasError: bool

    constructor (kind: Kind, cursor: ProgressToken?, hasBody: bool, hasError: bool)
      ensures this.kind == kind && this.cursor == cursor && this.hasBody == hasBody && this.hasError == hasError
    {
      this.kind, this.cursor, this.hasBody, this.hasError := kind, cursor, hasBody, hasError;
    }

    ghost function View(): Message
      reads this, cursor
    {
      Message(kind, if cursor == null then None else Some(cursor.View()), hasBody, hasError)
    }
  }

  class LiveSubscription {
    var cursor: ProgressToken?

    ghost function View(): Option<Token>
      reads this, cursor
    {
      if cursor == null then None else Some(cursor.View())
    }

    constructor ()
      ensures View() == None
    {
      cursor := null;
    }

    /** Callers get a copy, never the stored object. */
    method Cursor() returns (copy: ProgressToken?)
      ensures copy == null <==> cursor == null
      ensures copy != null ==> fresh(copy) && Some(copy.View()) == View()
    {
      copy := null;
      if cursor != null {
        copy := cursor.Clone();
      }
    }

    method ClearCursor()
      modifies this
      ensures View() == None
    {
      cursor := null;
    }

    method RememberCursor(candidate: ProgressToken)
      modifies this
      ensures View() == Remember(old(View()), old(candidate.View()))
      ensures cursor == old(cursor) || fresh(cursor)
    {
      var ok := candidate.Valid();
      if ok && (cursor == null ||
                (candidate.streamId == cursor.streamId && candidate.epoch == cursor.epoch
                 && Compare(candidate.position, cursor.position) > 0)) {
        cursor := candidate.Clone();
      }
    }

    /** The handler may overwrite the message and every other object in its reach. */
    method CallEventHandler(message: SubscriptionMessage, reach: set<object>, ok: bool) returns (accepted: bool)
      requires this !in reach && cursor !in reach
      requires message in reach
      modifies reach
      ensures accepted == ok
    {
      modify reach;
      return ok;
    }

    /** handleSubscriptionFrame, from the decoded message on. `reach` holds whatever the handler
        can get at from earlier calls; it can never get at the stored cursor. Whatever it does
        to the message, the cursor is the one that arrived. */
    method HandleMessage(message: SubscriptionMessage, reach: set<object>, handlerOk: bool, ackOk: bool)
      returns (fault: Option<Fault>, handed: bool)
      requires this !in reach && cursor !in reach
      requires message.cursor != null ==> message.cursor != cursor
      modifies this, message, reach
      ensures var spec := HandleFrame(old(View()), Carries(old(message.View())), handlerOk, ackOk);
              View() == spec.cursor && fault == spec.fault && handed == spec.handed.Some?
      ensures cursor == old(cursor) || fresh(cursor)
    {
      var valid := ValidateMessage(message);
      if !valid {
        return Some(Plain), false;
      }
      var own := message.cursor.Clone();
      message.cursor := own.Clone();
      var kind := message.kind;
      var progresses := ValidateProgression(kind, own);
      if !progresses {
        return Some(Gap), false;
      }
      var accepted := CallEventHandler(message, reach + {message, message.cursor}, handlerOk);
      if !accepted {
        return Some(Plain), true;
      }
      RememberCursor(own);
      if kind == Error {
        return Some(Terminal), true;
      }
      return if ackOk then None else Some(Plain), true;
    }

    method ValidateMessage(message: SubscriptionMessage) returns (ok: bool)
      ensures ok == ValidMessage(message.View())
      ensures ok ==> message.cursor != null
    {
      if message.cursor == null {
        return false;
      }
      var valid := message.cursor.Valid();
      if !valid {
        return false;
      }
      match message.kind
      case Event => return message.hasBody;
      case Eose => return true;
      case Error => return message.hasError;
      case Unknown => return false;
    }

    method ValidateProgression(kind: Kind, candidate: ProgressToken) returns (ok: bool)
      requires ValidToken(candidate.View())
      ensures forall m: Message :: ValidMessage(m) && m.kind == kind && m.cursor == Some(candidate.View()) ==>
                ok == Progresses(View(), m)
    {
      var current := Cursor();
      if current == null {
        return true;
      }
      if candidate.streamId != current.streamId || candidate.epoch != current.epoch {
        return false;
      }
      var comparison := Compare(candidate.position, current.position);
      return !(comparison < 0 || (comparison == 0 && kind != Eose));
    }
  }
}
