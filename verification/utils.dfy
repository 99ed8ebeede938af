/** The older helpers of utils.go: the one-argument name and code validators,
    and `createPastePathAndID`, which generates paths against the global set
    `paths` and numbers them with the global counter `currentPathNum`. */
module Utils {
  import opened Base
  import PathGen

  /** Go's `unicode.IsSpace`: the Latin-1 spaces and the Unicode White_Space characters. */
  predicate IsSpace(c: char)
  {
    var n := c as int;
    || n == 0x09 || n == 0x0A || n == 0x0B || n == 0x0C || n == 0x0D || n == 0x20
    || n == 0x85 || n == 0xA0 || n == 0x1680 || (0x2000 <= n <= 0x200A)
    || n == 0x2028 || n == 0x2029 || n == 0x202F || n == 0x205F || n == 0x3000
  }

  predicate IsBlank(s: string)
  {
    forall i :: 0 <= i < |s| ==> IsSpace(s[i])
  }

  /** Leading white space removed: a suffix of `s` that starts with a non-space, or is empty. */
  function TrimLeftSpace(s: string): (r: string)
    ensures |r| <= |s| && r == s[|s| - |r|..]
    ensures IsBlank(s[..|s| - |r|])
    ensures r == [] || !IsSpace(r[0])
  {
    if |s| > 0 && IsSpace(s[0]) then
      var r := TrimLeftSpace(s[1..]);
      assert s[..|s| - |r|] == [s[0]] + s[1..][..|s| - 1 - |r|];
      r
    else s
  }

  /** Trailing white space removed: a prefix of `s` that ends with a non-space, or is empty. */
  function TrimRightSpace(s: string): (r: string)
    ensures |r| <= |s| && r == s[..|r|]
    ensures IsBlank(s[|r|..])
    ensures r == [] || !IsSpace(r[|r| - 1])
  {
    if |s| > 0 && IsSpace(s[|s| - 1]) then
      var r := TrimRightSpace(s[..|s| - 1]);
      assert s[|r|..] == s[..|s| - 1][|r|..] + [s[|s| - 1]];
      r
    else s
  }

  /** `strings.TrimSpace`. */
  function TrimSpace(s: string): string
  {
    TrimRightSpace(TrimLeftSpace(s))
  }

  /** `TrimSpace` empties exactly the strings made only of white space. */
  lemma TrimSpaceEmptyIffBlank(s: string)
    ensures TrimSpace(s) == [] <==> IsBlank(s)
  {
  }

  /** `validateName`: a blank name becomes the configured default name; any
      other name is returned as given, untrimmed. */
  function ValidateName(name: string, defaultName: string): (r: string)
    ensures IsBlank(name) ==> r == defaultName
    ensures !IsBlank(name) ==> r == name
  {
    TrimSpaceEmptyIffBlank(name);
    if TrimSpace(name) == "" then defaultName else name
  }

  /** Validating a validated name changes nothing. */
  lemma ValidateNameIdempotent(name: string, defaultName: string)
    ensures ValidateName(ValidateName(name, defaultName), defaultName) == ValidateName(name, defaultName)
  {
  }

  /** `validateCode`: every code body is accepted as is. */
  function ValidateCode(code: string): (r: string)
    ensures r == code
  {
    code
  }

  /** The package-level state `createPastePathAndID` works on. */
  datatype PathRegistry = PathRegistry(paths: set<string>, currentPathNum: Int64)

  /** `createPastePathAndID`: a path that was not yet in `paths` and is now, and
      the counter's value from before the deferred increment. */
  method CreatePastePathAndID(reg: PathRegistry, pathLen: nat, rolls: seq<seq<nat>>)
    returns (path: string, id: Int64, reg': PathRegistry)
    requires PathGen.AreRolls(rolls, pathLen)
    requires PathGen.SomeRollFresh(reg.paths, pathLen, rolls)
    ensures PathGen.IsCandidate(path, pathLen)
    ensures path !in reg.paths && path in reg'.paths
    ensures reg'.paths - {path} == reg.paths
    ensures id == reg.currentPathNum
    ensures reg'.currentPathNum == Increment(reg.currentPathNum)
  {
    path := PathGen.DrawFresh(reg.paths, pathLen, rolls);
    id := reg.currentPathNum;
    reg' := PathRegistry(reg.paths + {path}, Increment(reg.currentPathNum));
  }

  /** Unlike `MemoryDB.CreatePastePath`, this generator reserves: once a call
      has taken `reg` to `reg'` by adding `p`, the set only grows, and against
      any later set no attempt that spells `p` can end the generation loop. */
  lemma ReservedPathIsNeverReturnedAgain(reg: PathRegistry, reg': PathRegistry, later: set<string>,
                                         pathLen: nat, p: string)
    requires p !in reg.paths && reg'.paths == reg.paths + {p}
    requires reg'.paths <= later
    ensures !PathGen.MayReturn(later, pathLen, p)
    ensures forall roll :: PathGen.IsRoll(roll, pathLen) && PathGen.Spell(roll) == p ==>
                             !PathGen.SomeRollFresh(later, pathLen, [roll])
  {
  }
}
