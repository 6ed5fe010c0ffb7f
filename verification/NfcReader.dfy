/** The NFC reader's polling loop: one event for each card presented. */
module NfcReader {
  import opened Basics
  import opened Events
  import opened Uid

  /** One read of a card: its UID bytes, an answer without one, or an exception. */
  datatype CardRead = Bytes(bytes: seq<Byte>) | NoAnswer | Raises

  /** What one turn of the outer loop meets. A card that answers its first read is read again and
      again, as `dwell` says, until a read raises or the service shuts down. */
  datatype Turn =
    | NoContext
    | NoReaders
    | NoCard
    | ConnectFails
    | Card(read: CardRead, dwell: seq<CardRead>, at: real)

  /** A card whose first read yields a UID. */
  predicate Presents(t: Turn) {
    t.Card? && t.read.Bytes? && t.read.bytes != []
  }

  /** The UIDs of the cards presented, in order. */
  function Presented(turns: seq<Turn>): seq<string> {
    if turns == [] then []
    else
      var last := turns[|turns| - 1];
      Presented(turns[..|turns| - 1]) + (if Presents(last) then [Hex(last.read.bytes)] else [])
  }

  function PutAll(queue: seq<Event>, uids: seq<string>): seq<Event> {
    if uids == [] then queue else Put(PutAll(queue, uids[..|uids| - 1]), NfcUid(uids[|uids| - 1]))
  }

  class NfcReader {
    const queue: EventQueue
    const debounceSeconds: real
    var lastUid: Option<string>
    var lastUidTime: real

    constructor (queue: EventQueue, debounceSeconds: real)
      ensures this.queue == queue && lastUid.None?
    {
      this.queue, this.debounceSeconds := queue, debounceSeconds;
      lastUid, lastUidTime := None, 0.0;
    }

    predicate Debounced(uid: string, now: real)
      reads this
    {
      lastUid == Some(uid) && now - lastUidTime < debounceSeconds
    }

    method IsDebounced(uid: string, now: real) returns (r: bool)
      ensures r == Debounced(uid, now)
    {
      if lastUid == Some(uid) {
        var elapsed := now - lastUidTime;
        return elapsed < debounceSeconds;
      }
      return false;
    }

    method PostUidEvent(uid: string)
      modifies queue
      ensures queue.items == Put(old(queue.items), NfcUid(uid))
    {
      var ok := queue.PutNowait(NfcUid(uid));
    }

    /** The loop until shutdown, which comes after `turns`: one attempt to post for each card
        presented, in order, whatever the dwell times and the debounce setting: no read is ever held back. */
    method Run(turns: seq<Turn>)
      requires lastUid.None?
      modifies this, queue
      ensures lastUid.None?
      ensures queue.items == PutAll(old(queue.items), Presented(turns))
    {
      var i := 0;
      while i < |turns|
        invariant 0 <= i <= |turns|
        invariant lastUid.None?
        invariant queue.items == PutAll(old(queue.items), Presented(turns[..i]))
      {
        var turn := turns[i];
        PresentedStep(turns, i, old(queue.items));
        i := i + 1;
        if !turn.Card? || turn.read.Raises? {
          continue;
        }
        if turn.read.Bytes? && turn.read.bytes != [] {
          var uid := Hex(turn.read.bytes);
          var repeated := IsDebounced(uid, turn.at);
          if !repeated {
            lastUid := Some(uid);
            lastUidTime := turn.at;
            PostUidEvent(uid);
          } else {
            assert false;
          }
        }
        var k := 0;
        while k < |turn.dwell| && !turn.dwell[k].Raises?
        {
          k := k + 1;
        }
        lastUid := None;
      }
      assert turns[..|turns|] == turns;
    }
  }

  lemma PresentedStep(turns: seq<Turn>, i: nat, queue: seq<Event>)
    requires i < |turns|
    ensures PutAll(queue, Presented(turns[..i + 1]))
         == if Presents(turns[i]) then Put(PutAll(queue, Presented(turns[..i])), NfcUid(Hex(turns[i].read.bytes)))
            else PutAll(queue, Presented(turns[..i]))
  {
    var upTo, uids := turns[..i + 1], Presented(turns[..i]);
    assert upTo[..|upTo| - 1] == turns[..i] && upTo[|upTo| - 1] == turns[i];
    assert Presented(upTo) == uids + (if Presents(turns[i]) then [Hex(turns[i].read.bytes)] else []);
    if Presents(turns[i]) {
      var more := uids + [Hex(turns[i].read.bytes)];
      assert more[..|more| - 1] == uids && more[|more| - 1] == Hex(turns[i].read.bytes);
    } else {
      assert uids + [] == uids;
    }
  }

  function Presentations(turns: seq<Turn>): nat {
    if turns == [] then 0 else Presentations(turns[..|turns| - 1]) + (if Presents(turns[|turns| - 1]) then 1 else 0)
  }

  predicate AllCanonical(uids: seq<string>) {
    forall i :: 0 <= i < |uids| ==> Canonical(uids[i])
  }

  /** Exactly one event is attempted for each presentation, and each carries a canonical UID. */
  lemma {:induction false} OneEventPerPresentation(turns: seq<Turn>)
    ensures |Presented(turns)| == Presentations(turns)
    ensures AllCanonical(Presented(turns))
  {
    if turns != [] {
      OneEventPerPresentation(turns[..|turns| - 1]);
      var last := turns[|turns| - 1];
      if Presents(last) {
        DecodeHex(last.read.bytes);
      }
    }
  }

  /** The attempt for a presentation carries the UID read from that card. */
  lemma {:induction false} AttemptCarriesUid(turns: seq<Turn>, i: nat)
    requires i < |turns| && Presents(turns[i])
    ensures Presentations(turns[..i]) < |Presented(turns)|
    ensures Presented(turns)[Presentations(turns[..i])] == Hex(turns[i].read.bytes)
  {
    var before, last := turns[..|turns| - 1], |turns| - 1;
    OneEventPerPresentation(before);
    if i < last {
      AttemptCarriesUid(before, i);
      assert before[..i] == turns[..i];
    }
  }

  function AsEvents(uids: seq<string>): seq<Event> {
    seq(|uids|, i requires 0 <= i < |uids| => NfcUid(uids[i]))
  }

  /** The attempts are queued in order as long as there is room, and dropped afterwards. */
  lemma {:induction false} AttemptsQueue(queue: seq<Event>, uids: seq<string>)
    requires |queue| <= QUEUE_CAPACITY
    ensures PutAll(queue, uids) == queue + AsEvents(Clip(uids, QUEUE_CAPACITY - |queue|))
  {
    if uids != [] {
      var rest, last := uids[..|uids| - 1], uids[|uids| - 1];
      AttemptsQueue(queue, rest);
      if |rest| < QUEUE_CAPACITY - |queue| {
        assert Clip(uids, QUEUE_CAPACITY - |queue|) == uids;
        assert AsEvents(uids) == AsEvents(rest) + [NfcUid(last)];
      } else {
        assert Clip(uids, QUEUE_CAPACITY - |queue|) == Clip(rest, QUEUE_CAPACITY - |queue|);
      }
    }
  }
}
