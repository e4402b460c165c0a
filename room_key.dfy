/** The client's room key for a conversation: the two user names sorted by JavaScript's default
    string order and joined with "_". */
module RoomKeys {
  /** JavaScript's `<` on strings, which the default comparator of `Array.prototype.sort` uses:
      compare code unit by code unit; a proper prefix comes first. */
  predicate Below(a: string, b: string)
  {
    if a == [] then b != []
    else if b == [] then false
    else if a[0] != b[0] then a[0] < b[0]
    else Below(a[1..], b[1..])
  }

  lemma {:induction false} BelowIrreflexive(a: string)
    ensures !Below(a, a)
  {
    if a != [] {
      BelowIrreflexive(a[1..]);
    }
  }

  lemma {:induction false} BelowAsymmetric(a: string, b: string)
    ensures Below(a, b) ==> !Below(b, a)
  {
    if a != [] && b != [] && a[0] == b[0] {
      BelowAsymmetric(a[1..], b[1..]);
    }
  }

  /** Two distinct strings are always ordered one way or the other. */
  lemma {:induction false} BelowTotal(a: string, b: string)
    ensures a == b || Below(a, b) || Below(b, a)
  {
    if a != [] && b != [] && a[0] == b[0] {
      BelowTotal(a[1..], b[1..]);
      if a[1..] == b[1..] {
        assert a == [a[0]] + a[1..] && b == [b[0]] + b[1..];
      }
    }
  }

  /** `[a, b].sort()`: the pair in ascending order. */
  function Sort2(a: string, b: string): (r: (string, string))
    ensures (r.0 == a && r.1 == b) || (r.0 == b && r.1 == a)
    ensures !Below(r.1, r.0)
  {
    if Below(b, a) then
      BelowAsymmetric(b, a);
      (b, a)
    else (a, b)
  }

  /** `[me, friend].sort().join("_")`. */
  function RoomKey(me: string, friend: string): (key: string)
    ensures key == me + "_" + friend || key == friend + "_" + me
  {
    var (lo, hi) := Sort2(me, friend);
    lo + "_" + hi
  }

  /** Both participants compute the same key. */
  lemma RoomKeySymmetric(a: string, b: string)
    ensures RoomKey(a, b) == RoomKey(b, a)
  {
    BelowTotal(a, b);
    BelowAsymmetric(a, b);
  }

  /** The key is the smaller name, "_", then the larger one. */
  lemma RoomKeyShape(a: string, b: string)
    ensures exists lo, hi :: {lo, hi} == {a, b} && !Below(hi, lo) && RoomKey(a, b) == lo + "_" + hi
  {
    var (lo, hi) := Sort2(a, b);
    assert {lo, hi} == {a, b};
  }

  /** When neither name contains "_", the key determines the pair. */
  lemma RoomKeyInjective(a: string, b: string, c: string, d: string)
    requires '_' !in a && '_' !in b && '_' !in c && '_' !in d
    requires RoomKey(a, b) == RoomKey(c, d)
    ensures (a == c && b == d) || (a == d && b == c)
  {
    var (lo1, hi1) := Sort2(a, b);
    var (lo2, hi2) := Sort2(c, d);
    var k := RoomKey(a, b);
    assert k == lo1 + "_" + hi1 && k == lo2 + "_" + hi2;
    SeparatorAt(lo1, hi1, lo2, hi2);
    assert lo1 == k[..|lo1|] == lo2;
    assert hi1 == k[|lo1| + 1..] == hi2;
  }

  lemma SeparatorAt(x: string, y: string, u: string, v: string)
    requires '_' !in x && '_' !in u
    requires x + "_" + y == u + "_" + v
    ensures |x| == |u|
  {
    var k := x + "_" + y;
    assert k[|x|] == '_' && k[|u|] == '_';
    assert forall i :: 0 <= i < |x| ==> k[i] == x[i] != '_';
    assert forall i :: 0 <= i < |u| ==> k[i] == u[i] != '_';
  }

  /** The key is longer than either name, so it is never the name of either participant: a socket
      that joined only the room of its user's name is not in the pair's room. */
  lemma RoomKeyIsNoName(a: string, b: string)
    ensures |RoomKey(a, b)| == |a| + |b| + 1
    ensures RoomKey(a, b) != a && RoomKey(a, b) != b
  {
  }

  /** Names that contain "_" can collide: two different conversations share a key. */
  lemma RoomKeyCollision()
    ensures RoomKey("a_b", "c") == RoomKey("a", "b_c") == "a_b_c"
  {
  }

  lemma RoomKeyExample()
    ensures RoomKey("alice", "bob") == RoomKey("bob", "alice") == "alice_bob"
  {
  }
}
