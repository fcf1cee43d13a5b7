/** Buffs and the `std::set<Buff>` that holds them.

    A buff is known by its description. The set orders buffs by the BYTE LENGTH of the
    description alone, so two buffs whose descriptions are equally long are equivalent to
    the set, whatever their bytes: the set behaves like a map keyed by description length.
    A `std::set` is an ordered container; here it is the sequence of its elements in
    iteration order, strictly ascending by that key. */
module Buffs {
  import opened Machine
  import opened Errors

  const MAX_DESCRIPTION_LENGTH: uint32 := 30

  /** A description that passes the constructor's check, which compares the length after
      the `(uint)` cast. */
  type Description = d: seq<byte> | CastLength(d) <= MAX_DESCRIPTION_LENGTH witness []

  /** The buff's effect (two floats) is not modelled: nothing ever reads it. */
  datatype Buff = Buff(description: Description)

  /** `Buff(buffEffect, description)`: throws when the description is too long. */
  function NewBuff(description: seq<byte>): (r: Result<Buff>)
    ensures r.Ok? <==> CastLength(description) <= MAX_DESCRIPTION_LENGTH
    ensures r.Ok? ==> r.value.description == description
    ensures r.Err? ==> r.error == DescriptionTooLong
  {
    if CastLength(description) > MAX_DESCRIPTION_LENGTH then Err(DescriptionTooLong)
    else Ok(Buff(description))
  }

  /** The key the set orders by: `description.length()`, not truncated. */
  function Key(b: Buff): nat
  {
    |b.description|
  }

  /** `operator<`: orders by description length alone, so it never holds between two
      buffs that are `==`. */
  predicate Less(a: Buff, b: Buff): (r: bool)
    ensures r ==> !SameDescription(a, b)
  {
    Key(a) < Key(b)
  }

  /** `operator==`: compares the description bytes, which is all a buff holds here, so it
      is equality of buffs. The set never uses it. */
  predicate SameDescription(a: Buff, b: Buff): (r: bool)
    ensures r <==> a == b
  {
    a.description == b.description
  }

  /** Equivalence as `std::set` sees it: neither is less than the other. */
  predicate Equivalent(a: Buff, b: Buff): (r: bool)
    ensures r <==> Key(a) == Key(b)
  {
    !Less(a, b) && !Less(b, a)
  }

  /** `operator<` is a strict weak ordering, as `std::set` demands of its comparator. */
  lemma LessIsStrictWeakOrder(a: Buff, b: Buff, c: Buff)
    ensures !Less(a, a)
    ensures Less(a, b) && Less(b, c) ==> Less(a, c)
    ensures Equivalent(a, b) && Equivalent(b, c) ==> Equivalent(a, c)
  {
  }

  /** `operator==` implies equivalence, but not conversely: the set treats two buffs with
      different descriptions of equal length as the same element. */
  lemma EquivalenceIsCoarserThanEquality()
    ensures forall a, b :: SameDescription(a, b) ==> Equivalent(a, b)
    ensures exists a, b :: Equivalent(a, b) && !SameDescription(a, b)
  {
    var a, b := Buff([0x61]), Buff([0x62]);
    assert Equivalent(a, b) && !SameDescription(a, b);
  }

  /** The `std::set<Buff>` invariant: strictly ascending by key in iteration order. */
  predicate Ascending(s: seq<Buff>)
  {
    forall i, j :: 0 <= i < j < |s| ==> Less(s[i], s[j])
  }

  type BuffSet = s: seq<Buff> | Ascending(s) witness []

  /** `s.count(b) > 0`: some element is equivalent to `b`. */
  predicate Contains(s: seq<Buff>, b: Buff)
  {
    exists x :: x in s && Equivalent(x, b)
  }

  /** A buff set holds at most one buff per description length. */
  lemma OneBuffPerLength(s: BuffSet, x: Buff, y: Buff)
    requires x in s && y in s && Equivalent(x, y)
    ensures x == y
  {
    var i :| 0 <= i < |s| && s[i] == x;
    var j :| 0 <= j < |s| && s[j] == y;
  }

  /** The elements after the first of a buff set are all greater than it. */
  lemma HeadIsLeast(s: BuffSet, x: Buff)
    requires |s| > 0 && x in s[1..]
    ensures Less(s[0], x)
  {
    var i :| 0 <= i < |s[1..]| && s[1..][i] == x;
    assert s[i + 1] == x;
  }

  /** `set::insert(b)`: adds `b` unless an equivalent element is already held, in which
      case the set, and the element it holds, stay as they were. */
  function Insert(s: BuffSet, b: Buff): (r: BuffSet)
    ensures Contains(s, b) ==> r == s
    ensures forall x :: x in r <==> x in s || (x == b && !Contains(s, b))
    ensures Contains(r, b)
    ensures |r| == if Contains(s, b) then |s| else |s| + 1
  {
    if |s| == 0 then [b]
    else if Less(b, s[0]) then
      assert forall x :: x in s ==> !Equivalent(x, b) by {
        forall x | x in s ensures !Equivalent(x, b) {
          if x != s[0] {
            assert x in s[1..] by { assert s == [s[0]] + s[1..]; }
            HeadIsLeast(s, x);
          }
        }
      }
      assert b in [b] + s;
      [b] + s
    else if Less(s[0], b) then
      var rest := Insert(s[1..], b);
      assert s == [s[0]] + s[1..];
      assert Contains(s, b) <==> Contains(s[1..], b);
      forall x | x in rest ensures Less(s[0], x) {
        if x != b { HeadIsLeast(s, x); }
      }
      [s[0]] + rest
    else
      assert s[0] in s;
      s
  }

  /** Inserting into a set never loses an element, and an element equivalent to `x` is
      present afterwards exactly when it was before or `x` is equivalent to `b`. */
  lemma ContainsAfterInsert(s: BuffSet, b: Buff, x: Buff)
    ensures Contains(Insert(s, b), x) <==> Contains(s, x) || Equivalent(b, x)
  {
    var r := Insert(s, b);
    if Equivalent(b, x) {
      var y :| y in r && Equivalent(y, b);
      assert y in r && Equivalent(y, x);
    }
    if Contains(s, x) {
      var y :| y in s && Equivalent(y, x);
      assert y in r;
    }
  }

  /** Range insertion `set::insert(add.begin(), add.end())`: the elements of `add`, in
      ascending order, each inserted as by `Insert`. */
  function InsertAll(s: BuffSet, add: BuffSet): (r: BuffSet)
    ensures forall x :: x in r <==> x in s || (x in add && !Contains(s, x))
    decreases |add|
  {
    if |add| == 0 then s
    else
      FirstInsertKeepsRest(s, add);
      InsertAll(Insert(s, add[0]), add[1..])
  }

  /** Inserting the first element of `add` does not change which of the later ones have an
      equivalent in the set: they are all longer. */
  lemma FirstInsertKeepsRest(s: BuffSet, add: BuffSet)
    requires |add| > 0
    ensures forall x :: x in add <==> x == add[0] || x in add[1..]
    ensures forall x :: x in add[1..] ==> (Contains(Insert(s, add[0]), x) <==> Contains(s, x))
  {
    assert add == [add[0]] + add[1..];
    forall x | x in add[1..]
      ensures Contains(Insert(s, add[0]), x) <==> Contains(s, x)
    {
      HeadIsLeast(add, x);
      ContainsAfterInsert(s, add[0], x);
    }
  }

  /** After a range insertion every inserted buff has an equivalent in the set, and every
      buff held before is still held. */
  lemma InsertAllCovers(s: BuffSet, add: BuffSet)
    ensures forall b :: b in add ==> Contains(InsertAll(s, add), b)
    ensures forall x :: x in s ==> x in InsertAll(s, add)
  {
    var r := InsertAll(s, add);
    forall b | b in add ensures Contains(r, b) {
      if Contains(s, b) {
        var y :| y in s && Equivalent(y, b);
        assert y in r;
      } else {
        assert b in r && Equivalent(b, b);
      }
    }
  }

  /** The evident intent of `removeBuffs`: drop every held buff that is equivalent to some
      element of `remove`; the others stay, in order. */
  function RemoveAll(s: BuffSet, remove: BuffSet): (r: BuffSet)
    ensures forall x :: x in r <==> x in s && !Contains(remove, x)
    ensures |r| <= |s|
  {
    if |s| == 0 then []
    else
      var rest := RemoveAll(s[1..], remove);
      assert s == [s[0]] + s[1..];
      if Contains(remove, s[0]) then rest
      else
        forall x | x in rest ensures Less(s[0], x) {
          HeadIsLeast(s, x);
        }
        [s[0]] + rest
  }

  /** The descriptions of the buffs, concatenated in iteration order (`getBuffs`). */
  function Descriptions(s: seq<Buff>): (r: seq<byte>)
    ensures s == [] ==> r == []
    ensures forall i :: 0 <= i < |s| ==> |s[i].description| <= |r|
  {
    if |s| == 0 then [] else s[0].description + Descriptions(s[1..])
  }

  /** The descriptions of two runs of buffs, one after the other. */
  lemma {:induction false} DescriptionsConcat(s: seq<Buff>, t: seq<Buff>)
    ensures Descriptions(s + t) == Descriptions(s) + Descriptions(t)
  {
    if |s| == 0 {
      assert s + t == t;
    } else {
      assert (s + t)[1..] == s[1..] + t;
      DescriptionsConcat(s[1..], t);
    }
  }

  /** In the concatenation each buff's description stands between the descriptions of the
      buffs before it and those after it. */
  lemma {:induction false} DescriptionsSplit(s: seq<Buff>, i: nat)
    requires i < |s|
    ensures Descriptions(s) == Descriptions(s[..i]) + s[i].description + Descriptions(s[i + 1..])
  {
    var before, after := s[..i], s[i + 1..];
    assert s == before + ([s[i]] + after);
    DescriptionsConcat(before, [s[i]] + after);
    DescriptionsConcat([s[i]], after);
    assert Descriptions([s[i]]) == s[i].description by {
      assert [s[i]][1..] == [];
    }
  }

  /** In a buff set the buffs before a buff are shorter and those after it longer; with
      `DescriptionsSplit`, `getBuffs` lists the descriptions by ascending length. */
  lemma ShorterBeforeLongerAfter(s: BuffSet, i: nat)
    requires i < |s|
    ensures forall x :: x in s[..i] ==> Less(x, s[i])
    ensures forall x :: x in s[i + 1..] ==> Less(s[i], x)
  {
    forall x | x in s[..i] ensures Less(x, s[i]) {
      var j :| 0 <= j < i && s[..i][j] == x;
      assert s[j] == x;
    }
    forall x | x in s[i + 1..] ensures Less(s[i], x) {
      var j :| 0 <= j < |s| - i - 1 && s[i + 1..][j] == x;
      assert s[i + 1 + j] == x;
    }
  }
}
