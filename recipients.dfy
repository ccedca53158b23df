/**
  The recipient store: the inbound updates that register a chat, and the
  order in which a full scan of the store returns the chats. The store is
  a table keyed by the chat id, so a scan visits the ids in ascending order
  and holds each id at most once.
*/
module Recipients {
  import opened Wrappers

  /** A C# `long`: chat ids are 64-bit. */
  type Int64 = x: int | -0x8000_0000_0000_0000 <= x < 0x8000_0000_0000_0000

  datatype Chat = Chat(id: Int64)

  /** An inbound message; `text` is absent for stickers, photos and other non-text content. */
  datatype Message = Message(chat: Chat, text: Option<string>)

  /** An inbound update; `message` is absent for every kind of update other than a message. */
  datatype Update = Update(message: Option<Message>)

  /** The chat an update registers, if any: only text messages register their chat. */
  function Sender(u: Update): Option<Int64> {
    match u.message
    case None => None
    case Some(m) => if m.text.None? then None else Some(m.chat.id)
  }

  /** The store after handling update `u`. */
  function Register(chats: set<int>, u: Update): set<int> {
    match Sender(u)
    case None => chats
    case Some(c) => if c in chats then chats else chats + {c}
  }

  /** Updates without a message, and messages without text, leave the store as it was. */
  lemma RegisterIgnoresNonText(chats: set<int>, u: Update)
    requires u.message.None? || u.message.value.text.None?
    ensures Register(chats, u) == chats
  {
  }

  /** A text message adds exactly its chat, and repeating it changes nothing more. */
  lemma RegisterTextMessage(chats: set<int>, u: Update)
    requires u.message.Some? && u.message.value.text.Some?
    ensures Register(chats, u) == chats + {u.message.value.chat.id}
    ensures Register(Register(chats, u), u) == Register(chats, u)
  {
  }

  /** A non-empty store has a member. */
  lemma HasMember(s: set<int>)
    requires s != {}
    ensures exists x :: x in s
  {
    if forall x :: x !in s {
      assert false;
    }
  }

  /** The least chat id in a non-empty store. */
  ghost function Min(s: set<int>): (m: int)
    requires s != {}
    ensures m in s && forall y :: y in s ==> m <= y
    decreases s
  {
    HasMember(s);
    var x :| x in s;
    var rest := s - {x};
    assert forall y :: y in s ==> y == x || y in rest;
    if rest == {} then x
    else
      var k := Min(rest);
      if x < k then x else k
  }

  /** The order a full scan of the store returns its chat ids: ascending, from the least. */
  ghost function Scan(s: set<int>): (r: seq<int>)
    ensures |r| == |s|
    decreases s
  {
    if s == {} then []
    else
      var m := Min(s);
      [m] + Scan(s - {m})
  }

  /** A scan lists exactly the stored chats, in strictly ascending order (so each once). */
  lemma {:induction false} ScanOrdered(s: set<int>)
    ensures forall x :: x in Scan(s) <==> x in s
    ensures forall i, j | 0 <= i < j < |Scan(s)| :: Scan(s)[i] < Scan(s)[j]
    decreases s
  {
    if s != {} {
      var m := Min(s);
      var rest := Scan(s - {m});
      ScanOrdered(s - {m});
      assert Scan(s) == [m] + rest;
      forall i, j | 0 <= i < j < |Scan(s)|
        ensures Scan(s)[i] < Scan(s)[j]
      {
        if i == 0 {
          assert Scan(s)[j] == rest[j - 1];
          assert rest[j - 1] in s - {m};
        } else {
          assert Scan(s)[i] == rest[i - 1] && Scan(s)[j] == rest[j - 1];
        }
      }
    }
  }

  /** Each stored chat occurs exactly once in a scan. */
  lemma {:induction false} ScanHoldsEachOnce(s: set<int>, c: int)
    requires c in s
    ensures multiset(Scan(s))[c] == 1
    decreases s
  {
    var m := Min(s);
    assert Scan(s) == [m] + Scan(s - {m});
    ScanOrdered(s - {m});
    if c == m {
      assert c !in Scan(s - {m});
      assert multiset(Scan(s - {m}))[c] == 0;
    } else {
      ScanHoldsEachOnce(s - {m}, c);
    }
  }
}
