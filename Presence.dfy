/** The `onlineUsers` object of server/server.js: user id → id of the socket
    the user last announced itself on. */
module Presence {
  import opened Wrappers

  /** A Socket.IO socket id: never the empty string, so always truthy. */
  type SocketId = s: string | s != "" witness "socket"

  /** Some entry points at `socket`. */
  predicate PointedAt(online: map<int, SocketId>, socket: SocketId) {
    exists k :: k in online && online[k] == socket
  }

  /** `k` is the least user id whose entry points at `socket`. */
  ghost predicate FirstFor(online: map<int, SocketId>, socket: SocketId, k: int) {
    && k in online && online[k] == socket
    && forall j :: j in online && online[j] == socket ==> k <= j
  }

  /** The least element of `keys`, found by descending from `w`. */
  ghost function LeastFrom(keys: set<int>, w: int): (k: int)
    requires w in keys
    ensures k in keys && k <= w
    ensures forall j :: j in keys ==> k <= j
    decreases set i | i in keys && i < w
  {
    if exists j :: j in keys && j < w then
      var j :| j in keys && j < w;
      var below, belowJ := set i | i in keys && i < w, set i | i in keys && i < j;
      assert belowJ <= below;
      assert j in below && j !in belowJ;
      LeastFrom(keys, j)
    else w
  }

  /** What `disconnect` leaves: the `for…in` visits the integer keys in
      ascending order and deletes the first one that points at the socket. */
  ghost function Disconnected(online: map<int, SocketId>, socket: SocketId): (r: map<int, SocketId>)
    ensures r.Keys <= online.Keys
    ensures forall k :: k in r ==> r[k] == online[k]
    ensures forall k :: k in online && k !in r ==> FirstFor(online, socket, k)
    ensures forall k :: FirstFor(online, socket, k) ==> k !in r
  {
    if !PointedAt(online, socket) then online
    else
      var w :| w in online && online[w] == socket;
      var keys := set k | k in online && online[k] == socket;
      assert w in keys;
      assert forall j :: j in online && online[j] == socket ==> j in keys;
      var k := LeastFrom(keys, w);
      assert FirstFor(online, socket, k);
      online - {k}
  }

  /** The registry. Handlers run one at a time on the event loop. */
  class PresenceRegistry {
    var online: map<int, SocketId>

    /** Empty when the process starts. */
    constructor ()
      ensures online == map[]
    {
      online := map[];
    }

    /** `onlineUsers[receiverId]`; a present entry is always truthy. */
    function Lookup(userId: int): (r: Option<SocketId>)
      reads this
      ensures r.Some? <==> userId in online
      ensures r.Some? ==> r.value == online[userId]
    {
      if userId in online then Some(online[userId]) else None
    }

    /** `user_online`: the last announcement wins; no other entry changes. */
    method UserOnline(userId: int, socket: SocketId)
      modifies this
      ensures online == old(online)[userId := socket]
    {
      online := online[userId := socket];
    }

    /** `disconnect`: removes at most the least-keyed entry pointing at the
        closing socket and stops. */
    method Disconnect(socket: SocketId)
      modifies this
      ensures online == Disconnected(old(online), socket)
    {
      var pending := online.Keys;
      while exists k :: k in pending
        invariant online == old(online)
        invariant pending <= online.Keys
        invariant forall k :: k in online && k !in pending ==> online[k] != socket
        invariant forall k, j :: k in online && k !in pending && j in pending ==> k < j
        decreases pending
      {
        var w :| w in pending;
        ghost var least := LeastFrom(pending, w);
        var k :| k in pending && forall j :: j in pending ==> k <= j;
        if online[k] == socket {
          assert FirstFor(online, socket, k);
          online := online - {k};
          return;
        }
        pending := pending - {k};
      }
    }
  }

  /** Announcing twice keeps the second socket; disconnecting that socket then
      leaves the user offline. */
  lemma ReannounceThenDisconnect(online: map<int, SocketId>, u: int, h1: SocketId, h2: SocketId)
    requires forall k :: k in online ==> online[k] != h2
    ensures online[u := h1][u := h2][u] == h2
    ensures u !in Disconnected(online[u := h1][u := h2], h2)
  {
    assert FirstFor(online[u := h1][u := h2], h2, u);
  }

  /** Closing a socket that no entry points at (the user re-announced on a
      newer one) changes nothing. */
  lemma DisconnectStaleSocket(online: map<int, SocketId>, socket: SocketId)
    requires forall k :: k in online ==> online[k] != socket
    ensures Disconnected(online, socket) == online
  {
  }
}
