/** Random path generation, shared by `MemoryDB.CreatePastePath` and
    `createPastePathAndID`: draw `length` letters of `Alphabeth`, and draw the
    whole candidate again while it is already taken.

    Each `rand.Intn(len(alphabeth))` result is supplied by the caller: one
    attempt is a `roll`, a sequence of letter indices, and `rolls` lists the
    attempts in order. Nothing is claimed about their distribution. */
module PathGen {

  const Alphabeth: string := "abcdefghijklmnopqrstuvwxyzABCDEFGHIJKLMNOPQRSTUVWXYZ"

  /** A path the generator can produce for `length`: exactly `length` letters of `Alphabeth`. */
  predicate IsCandidate(p: string, length: nat)
  {
    |p| == length && forall i :: 0 <= i < |p| ==> p[i] in Alphabeth
  }

  /** The results of `length` calls to `rand.Intn(len(alphabeth))`. */
  predicate IsRoll(roll: seq<nat>, length: nat)
  {
    |roll| == length && forall i :: 0 <= i < |roll| ==> roll[i] < |Alphabeth|
  }

  predicate AreRolls(rolls: seq<seq<nat>>, length: nat)
  {
    forall k :: 0 <= k < |rolls| ==> IsRoll(rolls[k], length)
  }

  /** The candidate string one attempt spells. */
  function Spell(roll: seq<nat>): (p: string)
    requires forall i :: 0 <= i < |roll| ==> roll[i] < |Alphabeth|
    ensures |p| == |roll|
    ensures forall i :: 0 <= i < |roll| ==> p[i] == Alphabeth[roll[i]]
  {
    seq(|roll|, i requires 0 <= i < |roll| => Alphabeth[roll[i]])
  }

  /** The generator may return `p` when the set of taken paths is `taken`. */
  predicate MayReturn(taken: set<string>, length: nat, p: string)
  {
    IsCandidate(p, length) && p !in taken
  }

  /** Some attempt spells a path that is not taken, so the loop stops. */
  predicate SomeRollFresh(taken: set<string>, length: nat, rolls: seq<seq<nat>>)
    requires AreRolls(rolls, length)
  {
    exists k :: 0 <= k < |rolls| && Spell(rolls[k]) !in taken
  }

  /** The generation loop: the first attempt whose candidate is not taken wins,
      every earlier candidate collided, and nothing is inserted anywhere. */
  method DrawFresh(taken: set<string>, length: nat, rolls: seq<seq<nat>>) returns (path: string)
    requires AreRolls(rolls, length)
    requires SomeRollFresh(taken, length, rolls)
    ensures MayReturn(taken, length, path)
    ensures exists k :: 0 <= k < |rolls| && path == Spell(rolls[k])
                        && forall j :: 0 <= j < k ==> Spell(rolls[j]) in taken
  {
    var k := 0;
    while Spell(rolls[k]) in taken
      invariant 0 <= k < |rolls|
      invariant forall j :: 0 <= j < k ==> Spell(rolls[j]) in taken
      invariant exists j :: k <= j < |rolls| && Spell(rolls[j]) !in taken
      decreases |rolls| - k
    {
      k := k + 1;
    }
    path := Spell(rolls[k]);
  }

  /** Position of a letter in `Alphabeth`. */
  ghost function IndexOf(c: char): (i: nat)
    requires c in Alphabeth
    ensures i < |Alphabeth| && Alphabeth[i] == c
  {
    var i :| 0 <= i < |Alphabeth| && Alphabeth[i] == c; i
  }

  /** Every path the generator may return is spelled by some attempt: the rolls
      abstraction loses none of the generator's possible results. */
  lemma EveryFreshCandidateIsDrawable(taken: set<string>, length: nat, p: string)
    requires MayReturn(taken, length, p)
    ensures exists roll :: IsRoll(roll, length) && Spell(roll) == p
                           && SomeRollFresh(taken, length, [roll])
  {
    var roll := seq(|p|, i requires 0 <= i < |p| => IndexOf(p[i]));
    assert Spell(roll) == p;
    assert Spell([roll][0]) == p;
  }

  /** Once every candidate of the length is taken, no attempt can succeed: the
      source's loop never ends. */
  lemma SaturatedTableAdmitsNoDraw(taken: set<string>, length: nat, rolls: seq<seq<nat>>)
    requires AreRolls(rolls, length)
    requires forall p :: IsCandidate(p, length) ==> p in taken
    ensures !SomeRollFresh(taken, length, rolls)
  {
  }

  /** With length 0 every attempt spells "", so the loop stops at the first
      attempt exactly when "" is not taken. */
  lemma ZeroLengthDrawsTheEmptyPath(taken: set<string>, rolls: seq<seq<nat>>)
    requires AreRolls(rolls, 0)
    ensures forall k :: 0 <= k < |rolls| ==> Spell(rolls[k]) == ""
    ensures SomeRollFresh(taken, 0, rolls) <==> |rolls| > 0 && "" !in taken
  {
    forall k | 0 <= k < |rolls|
      ensures Spell(rolls[k]) == ""
    {
      assert |rolls[k]| == 0;
    }
    if |rolls| > 0 && "" !in taken {
      assert Spell(rolls[0]) !in taken;
    }
  }
}
