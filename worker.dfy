/**
  The background worker: two persistent id stores, the poll cycle that
  detects new listings, the update handler that registers chats, and the
  broadcast that sends one message to every registered chat.
*/
module HouseFinder {
  import opened Wrappers
  import opened Feed
  import opened Dedup
  import opened Messages
  import opened Recipients

  class Worker {
    /** The `houses` table: every listing id observed so far. */
    var houses: set<int>
    /** The `chats` table: every chat that has sent the bot a text message. */
    var chats: set<int>

    /**
      Opens the two stores. Their tables are created only if missing, so
      the worker starts from whatever earlier runs left on disk.
    */
    constructor (storedHouses: set<int>, storedChats: set<int>)
      ensures houses == storedHouses && chats == storedChats
    {
      houses := storedHouses;
      chats := storedChats;
    }

    /**
      Handles one inbound update: a text message registers its chat, by a
      lookup followed by an insert when the id is absent; everything else
      is ignored.
    */
    method HandleUpdate(u: Update)
      modifies this`chats
      ensures houses == old(houses)
      ensures chats == Register(old(chats), u)
      ensures old(chats) <= chats
    {
      if u.message.None? {
        return;
      }
      var message := u.message.value;
      if message.text.None? {
        return;
      }
      var chatId := message.chat.id;
      if chatId !in chats {
        chats := chats + {chatId};
      }
    }

    /**
      One poll cycle on the outcome of the fetch. Each identifier is looked
      up and, when absent, inserted and reported as new. A failed fetch, a
      null result or a null list throws before the loop and changes nothing;
      a null element throws when the enumeration reaches it, so the
      identifiers before it stay inserted. The reported ids are the ones the
      notification call would receive; that call is disabled in the program,
      so the cycle sends nothing.
    */
    method PollCycle(fetched: Option<RightMoveResult>) returns (newIds: seq<int>)
      modifies this`houses
      ensures chats == old(chats)
      ensures houses == Absorb(old(houses), SnapshotIds(fetched))
      ensures newIds == NewIds(old(houses), SnapshotIds(fetched))
      ensures old(houses) <= houses
      ensures forall i | 0 <= i < |SnapshotIds(fetched)| :: SnapshotIds(fetched)[i] in houses
      ensures fetched.None? ==> houses == old(houses) && newIds == []
    {
      newIds := [];
      if fetched.None? {
        return;
      }
      var result := fetched.value;
      if result.properties.None? {
        return;
      }
      var ps := result.properties.value;
      ghost var ids := IdsBeforeNull(ps);
      ghost var start := houses;
      var i := 0;
      while i < |ps|
        invariant 0 <= i <= |ids|
        invariant forall x :: x in houses <==> x in start || x in ids[..i]
        invariant newIds + NewIds(houses, ids[i..]) == NewIds(start, ids)
      {
        if ps[i].None? {
          // the lazy selection dereferences null here; the exception ends the cycle
          break;
        }
        var id := ps[i].value.identifier;
        assert id == ids[i] && ids[i..][0] == id && ids[i..][1..] == ids[i + 1..];
        assert ids[..i + 1] == ids[..i] + [id];
        if id !in houses {
          houses := houses + {id};
          newIds := newIds + [id];
        }
        i := i + 1;
      }
      assert i == |ids| && ids[..i] == ids && ids[i..] == [];
      assert forall x :: x in houses <==> x in start || x in ids;
      assert forall x :: x in Absorb(start, ids) <==> x in start || x in ids;
      assert houses == Absorb(start, ids);
    }

    /**
      Sends `message` to every stored chat, reading the store from the
      least chat id upwards: one message per chat.
    */
    method SendStringMessageToAllUsers(message: string) returns (sent: seq<Outgoing>)
      ensures |sent| == |chats|
      ensures forall i | 0 <= i < |sent| :: sent[i] == Outgoing(Scan(chats)[i], message)
      ensures forall c :: c in chats <==> Outgoing(c, message) in sent
      ensures forall i, j | 0 <= i < j < |sent| :: sent[i].chatId < sent[j].chatId
    {
      var remaining := chats;
      sent := [];
      while remaining != {}
        invariant remaining <= chats
        invariant |sent| + |remaining| == |chats|
        invariant Scan(remaining) == Scan(chats)[|sent|..]
        invariant forall i | 0 <= i < |sent| :: sent[i] == Outgoing(Scan(chats)[i], message)
        decreases remaining
      {
        ghost var order := Scan(chats);
        var least := Min(remaining);
        var c :| c in remaining && forall d :: d in remaining ==> c <= d;
        assert c == least;
        assert Scan(remaining) == [c] + Scan(remaining - {c});
        assert order[|sent|] == c;
        assert Scan(remaining - {c}) == order[|sent| + 1..];
        sent := sent + [Outgoing(c, message)];
        remaining := remaining - {c};
      }
      assert Scan(remaining) == [];
      BroadcastReachesEachChat(chats, message, sent);
    }

    /** Sends the property URL of listing `id` to every stored chat. */
    method SendTelegramMessage(id: Int32) returns (sent: seq<Outgoing>)
      ensures |sent| == |chats|
      ensures forall i | 0 <= i < |sent| :: sent[i] == Outgoing(Scan(chats)[i], ListingText(id))
      ensures forall c :: c in chats <==> Outgoing(c, ListingText(id)) in sent
    {
      sent := SendStringMessageToAllUsers(ListingText(id));
    }

    /** The announcement made when the worker starts. */
    method Announce() returns (sent: seq<Outgoing>)
      ensures |sent| == |chats|
      ensures forall c :: c in chats <==> Outgoing(c, StartupText) in sent
    {
      sent := SendStringMessageToAllUsers(StartupText);
    }
  }

  /**
    A broadcast that follows the scan order reaches exactly the stored
    chats, each once, in ascending chat id order.
  */
  lemma BroadcastReachesEachChat(chats: set<int>, message: string, sent: seq<Outgoing>)
    requires |sent| == |chats|
    requires forall i | 0 <= i < |sent| :: sent[i] == Outgoing(Scan(chats)[i], message)
    ensures forall c :: c in chats <==> Outgoing(c, message) in sent
    ensures forall i, j | 0 <= i < j < |sent| :: sent[i].chatId < sent[j].chatId
  {
    ScanOrdered(chats);
    forall c | Outgoing(c, message) in sent
      ensures c in chats
    {
      var i :| 0 <= i < |sent| && sent[i] == Outgoing(c, message);
      assert Scan(chats)[i] == c;
    }
    forall c | c in chats
      ensures Outgoing(c, message) in sent
    {
      var i :| 0 <= i < |Scan(chats)| && Scan(chats)[i] == c;
      assert sent[i] == Outgoing(c, message);
    }
  }
}
