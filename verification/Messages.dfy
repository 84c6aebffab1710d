/** What the hub passes around. */
module Messages {
  import opened Codec

  datatype Option<+T> = None | Some(value: T)

  type PeerId = string

  datatype PushMsg = PushMsg(id: nat, body: Bytes, isBrAll: bool)

  /** The messages of a history that went to whole rooms. */
  function RoomPart(h: seq<PushMsg>): (r: seq<PushMsg>)
    ensures |r| <= |h|
  {
    if h == [] then []
    else RoomPart(h[..|h| - 1]) + if h[|h| - 1].isBrAll then [h[|h| - 1]] else []
  }

  /** The messages of a history that were addressed to peers. */
  function PeerPart(h: seq<PushMsg>): (r: seq<PushMsg>)
    ensures |r| <= |h|
  {
    if h == [] then []
    else PeerPart(h[..|h| - 1]) + if h[|h| - 1].isBrAll then [] else [h[|h| - 1]]
  }

  lemma PartsOfAppend(h: seq<PushMsg>, m: PushMsg)
    ensures RoomPart(h + [m]) == if m.isBrAll then RoomPart(h) + [m] else RoomPart(h)
    ensures PeerPart(h + [m]) == if m.isBrAll then PeerPart(h) else PeerPart(h) + [m]
  {
    assert (h + [m])[..|h|] == h;
  }

  /** Ids never go down along the sequence. */
  ghost predicate Ordered(s: seq<PushMsg>) {
    forall i, j :: 0 <= i < j < |s| ==> s[i].id <= s[j].id
  }

  /** Ids go up along the sequence. */
  ghost predicate StrictlyOrdered(s: seq<PushMsg>) {
    forall i, j :: 0 <= i < j < |s| ==> s[i].id < s[j].id
  }

  /** Every message of the sequence is one of the issued ones; message n carries id n. */
  ghost predicate Genuine(s: seq<PushMsg>, issued: seq<PushMsg>) {
    forall i :: 0 <= i < |s| ==> 1 <= s[i].id <= |issued| && s[i] == issued[s[i].id - 1]
  }

  predicate IsNewest(m: PushMsg, issued: seq<PushMsg>) {
    1 <= |issued| == m.id && m == issued[|issued| - 1]
  }

  lemma AppendNewest(s: seq<PushMsg>, m: PushMsg, issued: seq<PushMsg>)
    requires Ordered(s) && Genuine(s, issued) && IsNewest(m, issued)
    ensures Ordered(s + [m]) && Genuine(s + [m], issued)
  {
  }
}
