/** The in-process presence list of the realtime server: which user id is
    reachable on which socket, updated by the `addUser` and `disconnect`
    events and read by `sendMessage`. */
module Presence {
  import opened Common

  /** One `{ urId, socketId }` element of the list. */
  datatype Entry = Entry(urId: string, socketId: string)

  /** Some entry belongs to user `u`. */
  predicate Online(users: seq<Entry>, u: string) {
    exists i | 0 <= i < |users| :: users[i].urId == u
  }

  /** At most one entry per user id. */
  ghost predicate OnePerUser(users: seq<Entry>) {
    forall i, j | 0 <= i < j < |users| :: users[i].urId != users[j].urId
  }

  /** addUser: append only when no entry has this user id, so the first
      socket registered for a user wins. */
  function AddUser(users: seq<Entry>, urId: string, socketId: string): (r: seq<Entry>)
    ensures Online(users, urId) ==> r == users
    ensures !Online(users, urId) ==> r == users + [Entry(urId, socketId)]
    ensures OnePerUser(users) ==> OnePerUser(r)
  {
    if Online(users, urId) then users else users + [Entry(urId, socketId)]
  }

  /** removeUser: `filter(user => user.socketId !== socketId)`. */
  function RemoveUser(users: seq<Entry>, socketId: string): (r: seq<Entry>)
    ensures forall e :: e in r <==> e in users && e.socketId != socketId
    ensures |r| <= |users|
  {
    if |users| == 0 then []
    else (if users[0].socketId != socketId then [users[0]] else []) + RemoveUser(users[1..], socketId)
  }

  /** The filter works element by element, so it keeps the survivors in
      their original order. */
  lemma {:induction false} RemoveUserAppend(a: seq<Entry>, b: seq<Entry>, socketId: string)
    ensures RemoveUser(a + b, socketId) == RemoveUser(a, socketId) + RemoveUser(b, socketId)
  {
    if |a| > 0 {
      assert (a + b)[1..] == a[1..] + b;
      RemoveUserAppend(a[1..], b, socketId);
    } else {
      assert a + b == b;
    }
  }

  /** Removing a socket no entry uses leaves the list unchanged. */
  lemma {:induction false} RemoveUnknownSocket(users: seq<Entry>, socketId: string)
    requires forall i | 0 <= i < |users| :: users[i].socketId != socketId
    ensures RemoveUser(users, socketId) == users
  {
    if |users| > 0 {
      RemoveUnknownSocket(users[1..], socketId);
      assert users == [users[0]] + users[1..];
    }
  }

  /** Removal keeps at most one entry per user id. */
  lemma {:induction false} RemoveUserKeepsOnePerUser(users: seq<Entry>, socketId: string)
    requires OnePerUser(users)
    ensures OnePerUser(RemoveUser(users, socketId))
  {
    if |users| > 0 {
      var t := users[1..];
      assert OnePerUser(t) by {
        forall i, j | 0 <= i < j < |t|
          ensures t[i].urId != t[j].urId
        {
          assert t[i] == users[i + 1] && t[j] == users[j + 1];
        }
      }
      RemoveUserKeepsOnePerUser(t, socketId);
      var rest := RemoveUser(t, socketId);
      forall k | 0 <= k < |rest|
        ensures rest[k].urId != users[0].urId
      {
        assert rest[k] in t;
        var m :| 0 <= m < |t| && t[m] == rest[k];
        assert t[m] == users[m + 1];
      }
    }
  }

  /** getUser: the first entry for `u`, if any. */
  function GetUser(users: seq<Entry>, u: string): (r: Option<Entry>)
    ensures r.Some? <==> Online(users, u)
    ensures r.Some? ==> r.value in users && r.value.urId == u
    ensures r.Some? ==> exists i | 0 <= i < |users| ::
              (users[i] == r.value && forall j | 0 <= j < i :: users[j].urId != u)
  {
    if |users| == 0 then None
    else if users[0].urId == u then Some(users[0])
    else
      var r := GetUser(users[1..], u);
      assert Online(users, u) ==> Online(users[1..], u) by {
        if Online(users, u) {
          var i :| 0 <= i < |users| && users[i].urId == u;
          assert users[1..][i - 1] == users[i];
        }
      }
      if r.Some? then
        var i :| 0 <= i < |users[1..]| && users[1..][i] == r.value &&
                 forall j | 0 <= j < i :: users[1..][j].urId != u;
        assert users[i + 1] == r.value && forall j | 0 <= j < i + 1 :: users[j].urId != u;
        r
      else r
  }

  /** What the server emits: the whole list to everyone, or one message
      to one socket. */
  datatype Emit = Broadcast(list: seq<Entry>) | Deliver(socketId: string, senderId: string, text: string)

  /** The three socket events the server handles. */
  datatype Event =
    | AddUserEvent(urId: string, socket: string)
    | SendMessageEvent(senderId: string, receiverId: string, text: string)
    | DisconnectEvent(socket: string)

  /** One event handler run on the list. `sendMessage` resolves the receiver
      and emits to its socket; for an offline receiver the socket is
      `undefined`, which reaches no one, and the list never changes. */
  function Step(users: seq<Entry>, e: Event): (r: (seq<Entry>, seq<Emit>))
    ensures e.SendMessageEvent? ==> r.0 == users
    ensures e.SendMessageEvent? ==>
              r.1 == (if Online(users, e.receiverId)
                      then [Deliver(GetUser(users, e.receiverId).value.socketId, e.senderId, e.text)]
                      else [])
    ensures e.AddUserEvent? ==> r.0 == AddUser(users, e.urId, e.socket)
    ensures e.DisconnectEvent? ==> r.0 == RemoveUser(users, e.socket)
    ensures !e.SendMessageEvent? ==> r.1 == [Broadcast(r.0)]
  {
    match e
    case AddUserEvent(u, s) =>
      var next := AddUser(users, u, s);
      (next, [Broadcast(next)])
    case SendMessageEvent(from, to, text) =>
      var found := GetUser(users, to);
      (users, if found.Some? then [Deliver(found.value.socketId, from, text)] else [])
    case DisconnectEvent(s) =>
      var next := RemoveUser(users, s);
      (next, [Broadcast(next)])
  }

  /** Every event handler keeps at most one entry per user id. */
  lemma StepKeepsOnePerUser(users: seq<Entry>, e: Event)
    requires OnePerUser(users)
    ensures OnePerUser(Step(users, e).0)
  {
    if e.DisconnectEvent? {
      RemoveUserKeepsOnePerUser(users, e.socket);
    }
  }

  /** The list after a run of events. */
  function Run(users: seq<Entry>, events: seq<Event>): seq<Entry>
    decreases |events|
  {
    if |events| == 0 then users else Run(Step(users, events[0]).0, events[1..])
  }

  /** Every run from a list with one entry per user keeps that property. */
  lemma {:induction false} RunKeepsOnePerUser(users: seq<Entry>, events: seq<Event>)
    requires OnePerUser(users)
    ensures OnePerUser(Run(users, events))
    decreases |events|
  {
    if |events| > 0 {
      StepKeepsOnePerUser(users, events[0]);
      RunKeepsOnePerUser(Step(users, events[0]).0, events[1..]);
    }
  }

  /** A user who registers on a second socket while the first is still
      mapped keeps the first mapping; when the first socket disconnects the
      user goes offline although the second socket is still open. */
  lemma SecondTabGoesUnseen(u: string, c1: string, c2: string)
    requires c1 != c2
    ensures GetUser(Run([], [AddUserEvent(u, c1), AddUserEvent(u, c2)]), u) == Some(Entry(u, c1))
    ensures GetUser(Run([], [AddUserEvent(u, c1), AddUserEvent(u, c2), DisconnectEvent(c1)]), u) == None
  {
    var one := [Entry(u, c1)];
    assert Online(one, u) by { assert one[0].urId == u; }
    var second := [AddUserEvent(u, c2)];
    assert Step([], AddUserEvent(u, c1)).0 == one;
    assert Step(one, AddUserEvent(u, c2)).0 == one;
    assert Run(one, second) == Run(one, []) by { assert second[1..] == []; }
    assert Run([], [AddUserEvent(u, c1)] + second) == Run(one, second) by {
      assert ([AddUserEvent(u, c1)] + second)[1..] == second;
    }
    assert [AddUserEvent(u, c1)] + second == [AddUserEvent(u, c1), AddUserEvent(u, c2)];
    var last := [DisconnectEvent(c1)];
    assert RemoveUser(one, c1) == [];
    assert Run(one, last) == Run([], []) by { assert last[1..] == []; }
    assert Run(one, second + last) == Run(one, last) by {
      assert (second + last)[1..] == last;
    }
    assert Run([], [AddUserEvent(u, c1)] + (second + last)) == Run(one, second + last) by {
      assert ([AddUserEvent(u, c1)] + (second + last))[1..] == second + last;
    }
    assert [AddUserEvent(u, c1)] + (second + last) == [AddUserEvent(u, c1), AddUserEvent(u, c2), DisconnectEvent(c1)];
  }
}
