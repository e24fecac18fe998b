/**
 * The in-memory notification list of the client: every operation is a
 * functional update from the previous list to the next one, and the unread
 * count is derived from the list.
 */
module Notifications {
  import opened Model

  datatype Kind = Info | Warning | Danger

  /** `type` and `read` are optional; the timestamp is kept as an opaque instant. */
  datatype Notification = Notification(
    id: string,
    title: string,
    message: string,
    kind: Option<Kind>,
    timestamp: int,
    read: Option<bool>)

  /** `!n.read` is false only when `read` is present and true. */
  predicate IsRead(n: Notification) {
    n.read == Some(true)
  }

  predicate HasId(list: seq<Notification>, id: string) {
    exists n :: n in list && n.id == id
  }

  predicate DistinctIds(list: seq<Notification>) {
    forall i, j :: 0 <= i < j < |list| ==> list[i].id != list[j].id
  }

  /** `prev.some((n) => n.id === id)`, scanning the list. */
  function SomeWithId(list: seq<Notification>, id: string): (b: bool)
    ensures b <==> HasId(list, id)
  {
    if list == [] then false
    else list[0].id == id || SomeWithId(list[1..], id)
  }

  /** addNotification: a notification whose id is already listed is dropped; otherwise it goes last. */
  function AddNotification(prev: seq<Notification>, notif: Notification): (r: seq<Notification>)
    ensures HasId(prev, notif.id) ==> r == prev
    ensures !HasId(prev, notif.id) ==> |r| == |prev| + 1 && r[..|prev|] == prev && r[|prev|] == notif
    ensures HasId(r, notif.id)
  {
    if SomeWithId(prev, notif.id) then prev else prev + [notif]
  }

  /** markAsRead: every entry with that id gets `read = true`; everything else is kept as it was. */
  function MarkAsRead(prev: seq<Notification>, id: string): (r: seq<Notification>)
    ensures |r| == |prev|
    ensures forall i :: 0 <= i < |prev| ==>
      r[i] == if prev[i].id == id then prev[i].(read := Some(true)) else prev[i]
  {
    if prev == [] then []
    else
      var n := prev[0];
      [if n.id == id then n.(read := Some(true)) else n] + MarkAsRead(prev[1..], id)
  }

  /** clearNotifications: the list is replaced by the empty one, whatever it held. */
  function ClearNotifications(prev: seq<Notification>): (r: seq<Notification>)
    ensures forall id :: !HasId(r, id)
    ensures UnreadCount(r) == 0
  {
    []
  }

  /** unreadCount: the number of entries not marked read. */
  function UnreadCount(list: seq<Notification>): (c: nat)
    ensures c <= |list|
    ensures c == 0 <==> forall n :: n in list ==> IsRead(n)
  {
    if list == [] then 0
    else (if IsRead(list[0]) then 0 else 1) + UnreadCount(list[1..])
  }

  // ---------------------------------------------------------------------------
  // The list as the provider's state

  datatype Op = Add(notif: Notification) | MarkRead(id: string) | Clear

  function Apply(list: seq<Notification>, op: Op): seq<Notification> {
    match op
    case Add(notif) => AddNotification(list, notif)
    case MarkRead(id) => MarkAsRead(list, id)
    case Clear => ClearNotifications(list)
  }

  function Run(list: seq<Notification>, ops: seq<Op>): seq<Notification>
    decreases |ops|
  {
    if ops == [] then list else Run(Apply(list, ops[0]), ops[1..])
  }

  lemma AddKeepsDistinct(prev: seq<Notification>, notif: Notification)
    requires DistinctIds(prev)
    ensures DistinctIds(AddNotification(prev, notif))
  {
    var r := AddNotification(prev, notif);
    if !HasId(prev, notif.id) {
      forall i, j | 0 <= i < j < |r| ensures r[i].id != r[j].id {
        if j == |prev| {
          assert r[i] == prev[i];
          assert prev[i] in prev;
        } else {
          assert r[i] == prev[i] && r[j] == prev[j];
        }
      }
    }
  }

  /** Ids stay pairwise distinct across any sequence of add, mark-as-read and clear. */
  lemma {:induction false} RunKeepsDistinct(list: seq<Notification>, ops: seq<Op>)
    requires DistinctIds(list)
    ensures DistinctIds(Run(list, ops))
    decreases |ops|
  {
    if ops != [] {
      if ops[0].Add? {
        AddKeepsDistinct(list, ops[0].notif);
      }
      RunKeepsDistinct(Apply(list, ops[0]), ops[1..]);
    }
  }

  /** Starting from the provider's initial empty list, ids are always distinct. */
  lemma ReachableDistinct(ops: seq<Op>)
    ensures DistinctIds(Run([], ops))
  {
    RunKeepsDistinct([], ops);
  }

  lemma MarkAsReadIdempotent(prev: seq<Notification>, id: string)
    ensures MarkAsRead(MarkAsRead(prev, id), id) == MarkAsRead(prev, id)
  {
    var once := MarkAsRead(prev, id);
    var twice := MarkAsRead(once, id);
    forall i | 0 <= i < |prev| ensures twice[i] == once[i] {
    }
  }

  lemma MarkAsReadAbsent(prev: seq<Notification>, id: string)
    requires !HasId(prev, id)
    ensures MarkAsRead(prev, id) == prev
  {
    var r := MarkAsRead(prev, id);
    forall i | 0 <= i < |prev| ensures r[i] == prev[i] {
      assert prev[i] in prev;
    }
  }

  lemma {:induction false} UnreadCountAppend(a: seq<Notification>, b: seq<Notification>)
    ensures UnreadCount(a + b) == UnreadCount(a) + UnreadCount(b)
    decreases |a|
  {
    if a != [] {
      assert (a + b)[0] == a[0] && (a + b)[1..] == a[1..] + b;
      UnreadCountAppend(a[1..], b);
    } else {
      assert a + b == b;
    }
  }

  /** The unread count around one entry: what is before it, the entry itself, what is after it. */
  lemma UnreadCountAround(before: seq<Notification>, n: Notification, after: seq<Notification>)
    ensures UnreadCount(before + [n] + after) == UnreadCount(before) + (if IsRead(n) then 0 else 1) + UnreadCount(after)
  {
    UnreadCountAppend(before + [n], after);
    UnreadCountAppend(before, [n]);
  }

  /** With distinct ids, marking the id at position k touches that entry only. */
  lemma MarkAsReadAt(prev: seq<Notification>, k: nat, id: string)
    requires DistinctIds(prev)
    requires k < |prev| && prev[k].id == id
    ensures MarkAsRead(prev, id) == prev[..k] + [prev[k].(read := Some(true))] + prev[k + 1..]
  {
    var r := MarkAsRead(prev, id);
    var expected := prev[..k] + [prev[k].(read := Some(true))] + prev[k + 1..];
    assert |r| == |expected|;
    forall i | 0 <= i < |prev| ensures r[i] == expected[i] {
      if i < k {
        assert expected[i] == prev[i];
      } else if i > k {
        assert expected[i] == prev[i];
      }
    }
  }

  /** Marking the one unread entry with a listed id lowers the unread count by exactly one. */
  lemma MarkAsReadLowersUnread(prev: seq<Notification>, k: nat, id: string)
    requires DistinctIds(prev)
    requires k < |prev| && prev[k].id == id && !IsRead(prev[k])
    ensures UnreadCount(MarkAsRead(prev, id)) == UnreadCount(prev) - 1
  {
    assert prev == prev[..k] + [prev[k]] + prev[k + 1..];
    MarkAsReadAt(prev, k, id);
    UnreadCountAround(prev[..k], prev[k], prev[k + 1..]);
    UnreadCountAround(prev[..k], prev[k].(read := Some(true)), prev[k + 1..]);
  }
}
