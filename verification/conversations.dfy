/** Conversation documents: the get-or-create handler and the member
    lookup. The collection is a sequence in its natural order, and
    `findOne` yields the first match in that order. */
module Conversations {
  import opened Common

  datatype Conversation = Conversation(id: Id, members: seq<Id>)

  /** `{ members: { $all: [a, b] } }`: the members contain both ids, in any
      order and possibly among others. */
  predicate Holds(c: Conversation, a: Id, b: Id) {
    a in c.members && b in c.members
  }

  /** Some stored conversation holds both ids. */
  predicate Exists(convs: seq<Conversation>, a: Id, b: Id) {
    exists i | 0 <= i < |convs| :: Holds(convs[i], a, b)
  }

  /** `findOne` with the `$all` query: the first matching conversation. */
  function FindPair(convs: seq<Conversation>, a: Id, b: Id): (r: Option<Conversation>)
    ensures r.Some? <==> Exists(convs, a, b)
    ensures r.Some? ==> exists i | 0 <= i < |convs| ::
              (convs[i] == r.value && Holds(r.value, a, b) &&
               forall j | 0 <= j < i :: !Holds(convs[j], a, b))
  {
    if |convs| == 0 then None
    else if Holds(convs[0], a, b) then Some(convs[0])
    else
      var r := FindPair(convs[1..], a, b);
      assert Exists(convs, a, b) ==> Exists(convs[1..], a, b) by {
        if Exists(convs, a, b) {
          var i :| 0 <= i < |convs| && Holds(convs[i], a, b);
          assert convs[1..][i - 1] == convs[i];
        }
      }
      if r.Some? then
        var i :| 0 <= i < |convs[1..]| && convs[1..][i] == r.value && Holds(r.value, a, b) &&
                 forall j | 0 <= j < i :: !Holds(convs[1..][j], a, b);
        assert convs[i + 1] == r.value && forall j | 0 <= j < i + 1 :: !Holds(convs[j], a, b);
        r
      else r
  }

  predicate FreshId(convs: seq<Conversation>, newId: Id) {
    forall i | 0 <= i < |convs| :: convs[i].id != newId
  }

  /** createConverstation: return the stored conversation that holds both
      ids, or append `[id, friendId]` (in that order) and return it. */
  function GetOrCreate(convs: seq<Conversation>, id: Id, friendId: Id, newId: Id): (r: (seq<Conversation>, Conversation))
    requires FreshId(convs, newId)
    ensures Exists(convs, id, friendId) ==> r.0 == convs && r.1 in convs && Holds(r.1, id, friendId)
    ensures !Exists(convs, id, friendId) ==>
              r.0 == convs + [Conversation(newId, [id, friendId])] && r.1 == Conversation(newId, [id, friendId])
  {
    match FindPair(convs, id, friendId)
    case Some(c) => (convs, c)
    case None =>
      var c := Conversation(newId, [id, friendId]);
      (convs + [c], c)
  }

  /** Calling get-or-create again, with the ids in either order, creates
      nothing and returns the same conversation. */
  lemma GetOrCreateStable(convs: seq<Conversation>, a: Id, b: Id, n1: Id, n2: Id)
    requires FreshId(convs, n1) && FreshId(GetOrCreate(convs, a, b, n1).0, n2)
    ensures GetOrCreate(GetOrCreate(convs, a, b, n1).0, a, b, n2) == GetOrCreate(convs, a, b, n1)
    ensures GetOrCreate(GetOrCreate(convs, a, b, n1).0, b, a, n2) == GetOrCreate(convs, a, b, n1)
  {
    var s := GetOrCreate(convs, a, b, n1).0;
    var c := GetOrCreate(convs, a, b, n1).1;
    if !Exists(convs, a, b) {
      assert s[|convs|] == c;
      assert forall j | 0 <= j < |convs| :: s[j] == convs[j];
    }
    assert FindPair(s, a, b) == Some(c);
    assert FindPair(s, b, a) == Some(c) by {
      FindPairSymmetric(s, a, b);
    }
  }

  /** The `$all` match does not depend on the order of the two ids. */
  lemma {:induction false} FindPairSymmetric(convs: seq<Conversation>, a: Id, b: Id)
    ensures FindPair(convs, a, b) == FindPair(convs, b, a)
  {
    if |convs| > 0 {
      FindPairSymmetric(convs[1..], a, b);
    }
  }

  /** No two conversations hold the same pair of distinct users. */
  ghost predicate OnePerPair(convs: seq<Conversation>) {
    forall i, j, a, b | 0 <= i < j < |convs| && a != b ::
      !(Holds(convs[i], a, b) && Holds(convs[j], a, b))
  }

  /** Get-or-create keeps at most one conversation per pair of users. */
  lemma GetOrCreateKeepsOnePerPair(convs: seq<Conversation>, id: Id, friendId: Id, newId: Id)
    requires FreshId(convs, newId) && OnePerPair(convs)
    ensures OnePerPair(GetOrCreate(convs, id, friendId, newId).0)
  {
    if !Exists(convs, id, friendId) {
      var s := GetOrCreate(convs, id, friendId, newId).0;
      var c := s[|convs|];
      forall i, j, a, b | 0 <= i < j < |s| && a != b
        ensures !(Holds(s[i], a, b) && Holds(s[j], a, b))
      {
        if j == |convs| {
          assert s[i] == convs[i] && !Holds(convs[i], id, friendId);
          assert c.members == [id, friendId];
        } else {
          assert s[i] == convs[i] && s[j] == convs[j];
        }
      }
    }
  }

  /** getConverstation: the conversations whose members include `x`. The
      route parameter is named as a conversation id but is matched against
      the members. */
  function Involving(convs: seq<Conversation>, x: Id): (r: seq<Conversation>)
    ensures forall c :: c in r <==> c in convs && x in c.members
    ensures |r| <= |convs|
  {
    if |convs| == 0 then []
    else (if x in convs[0].members then [convs[0]] else []) + Involving(convs[1..], x)
  }
}
