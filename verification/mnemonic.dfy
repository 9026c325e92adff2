/** Condition codes and the mnemonic decoder (decode_mnemonic), shared by both assemblers. */
module Mnemonic {
  import opened Common
  import opened Text

  /** The `conds` table: condition suffix -> 4-bit condition field. */
  const Conds: map<string, nat> := map[
    "EQ" := 0x0, "NE" := 0x1, "CS" := 0x2, "HS" := 0x2, "CC" := 0x3, "LO" := 0x3,
    "MI" := 0x4, "PL" := 0x5, "VS" := 0x6, "VC" := 0x7, "HI" := 0x8, "LS" := 0x9,
    "GE" := 0xA, "LT" := 0xB, "GT" := 0xC, "LE" := 0xD, "AL" := 0xE]

  /** The order in which the decoder tries the suffixes: the table's declaration order. */
  const CondOrder: seq<string> := [
    "EQ", "NE", "CS", "HS", "CC", "LO", "MI", "PL", "VS", "VC", "HI", "LS",
    "GE", "LT", "GT", "LE", "AL"]

  /** The search order lists exactly the table's keys, each a two-letter name with a 4-bit code. */
  lemma CondOrderIsTable()
    ensures forall k | 0 <= k < |CondOrder| :: CondOrder[k] in Conds && |CondOrder[k]| == 2
    ensures forall c | c in Conds :: c in CondOrder && Conds[c] < 16
    ensures "AL" in Conds
  {
  }

  /** Each entry of the search order is a two-letter key of the table. */
  lemma CondInTable(k: nat)
    requires k < |CondOrder|
    ensures CondOrder[k] in Conds && |CondOrder[k]| == 2
  {
    CondOrderIsTable();
  }

  datatype Decoded = Decoded(base: string, cond: string, flags: bool)

  /** Index of the first condition name, from position k of the search order on, that s ends with. */
  function FirstCondSuffix(s: string, k: nat): (r: Option<nat>)
    ensures r.Some? ==> k <= r.value < |CondOrder| && EndsWith(s, CondOrder[r.value])
    ensures r.Some? ==> forall j | k <= j < r.value :: !EndsWith(s, CondOrder[j])
    ensures r.None? ==> forall j | k <= j < |CondOrder| :: !EndsWith(s, CondOrder[j])
    decreases |CondOrder| - k
  {
    if k >= |CondOrder| then None
    else if EndsWith(s, CondOrder[k]) then Some(k)
    else FirstCondSuffix(s, k + 1)
  }

  /** The upper-cased mnemonic with one trailing flags 'S' removed. */
  function Unflagged(name: string): string
  {
    var up := Upper(name);
    if EndsWith(up, "S") then up[..|up| - 1] else up
  }

  /** decode_mnemonic: upper-case, strip a trailing 'S' (flags), then strip the first
      condition suffix in declaration order, defaulting to AL. */
  function Decode(name: string): (d: Decoded)
    ensures d.cond in Conds
    ensures d.flags <==> EndsWith(Upper(name), "S")
    ensures Upper(name) == Unflagged(name) + (if d.flags then "S" else "")
    ensures FirstCondSuffix(Unflagged(name), 0).Some? ==>
              Unflagged(name) == d.base + d.cond
              && d.cond == CondOrder[FirstCondSuffix(Unflagged(name), 0).value]
    ensures FirstCondSuffix(Unflagged(name), 0).None? ==>
              d.base == Unflagged(name) && d.cond == "AL"
  {
    var rest := Unflagged(name);
    var flags := EndsWith(Upper(name), "S");
    UnflaggedSplit(name);
    match FirstCondSuffix(rest, 0)
    case None =>
      assert "AL" in Conds;
      Decoded(rest, "AL", flags)
    case Some(k) =>
      CondInTable(k);
      var base := rest[..|rest| - |CondOrder[k]|];
      assert rest == base + CondOrder[k];
      Decoded(base, CondOrder[k], flags)
  }

  /** Removing the flags 'S' and putting it back gives the upper-cased name. */
  lemma UnflaggedSplit(name: string)
    ensures Upper(name) == Unflagged(name) + (if EndsWith(Upper(name), "S") then "S" else "")
  {
    var up := Upper(name);
    if EndsWith(up, "S") {
      assert up == up[..|up| - 1] + up[|up| - 1..];
    } else {
      assert up + "" == up;
    }
  }

  /** Decode when the k-th condition of the search order is the first suffix found. */
  lemma DecodeFound(name: string, k: nat)
    requires FirstCondSuffix(Unflagged(name), 0) == Some(k)
    ensures Decode(name) == Decoded(Unflagged(name)[..|Unflagged(name)| - |CondOrder[k]|], CondOrder[k],
                                    EndsWith(Upper(name), "S"))
  {
  }

  /** Decode when no condition suffix is found. */
  lemma DecodeNotFound(name: string)
    requires FirstCondSuffix(Unflagged(name), 0).None?
    ensures Decode(name) == Decoded(Unflagged(name), "AL", EndsWith(Upper(name), "S"))
  {
  }

  /** Upper-casing `b + c`, for a two-letter upper-case `c` ending in 'S', ends in 'S'; what is
      left after removing it is the upper-cased `b` followed by the first letter of `c`. */
  lemma UnflaggedBeforeS(b: string, c: string)
    requires |c| == 2 && c[1] == 'S' && UpperChar(c[0]) == c[0]
    ensures EndsWith(Upper(b + c), "S")
    ensures |Unflagged(b + c)| == |b| + 1
    ensures Unflagged(b + c)[..|b|] == Upper(b)
    ensures Unflagged(b + c)[|b|] == c[0]
  {
    var up := Upper(b + c);
    assert up[|b| + 1] == 'S';
    assert up[|up| - 1..] == "S";
    var rest := up[..|up| - 1];
    assert rest[|b|] == c[0];
    forall k | 0 <= k < |b| ensures rest[k] == Upper(b)[k] {
      assert (b + c)[k] == b[k];
    }
  }

  /** Appending a condition whose name ends in 'S' sets the flags, and what is left after
      removing that 'S' is the upper-cased prefix followed by the condition's first letter. */
  lemma FlagsOfConditionS(b: string, c: string)
    requires c in {"CS", "HS", "VS", "LS"}
    ensures Decode(b + c).flags
    ensures |Unflagged(b + c)| == |b| + 1
    ensures Unflagged(b + c)[..|b|] == Upper(b)
    ensures Unflagged(b + c)[|b|] == c[0]
  {
    assert |c| == 2 && c[1] == 'S' && UpperChar(c[0]) == c[0];
    UnflaggedBeforeS(b, c);
  }

  /** No condition name starts with 'B'. */
  lemma NoConditionStartsWithB()
    ensures forall k | 0 <= k < |CondOrder| :: CondOrder[k][0] != 'B'
  {
  }

  /** So `B` plus one letter carries no condition suffix. */
  lemma BranchLetterHasNoSuffix(x: char)
    ensures FirstCondSuffix("B" + [x], 0).None?
  {
    var rest := "B" + [x];
    CondOrderIsTable();
    NoConditionStartsWithB();
    assert rest[0] == 'B' && |rest| == 2;
    forall k | 0 <= k < |CondOrder| ensures !EndsWith(rest, CondOrder[k]) {
      assert rest[|rest| - 2..] == rest;
    }
  }

  /** A condition whose name ends in 'S' (CS, HS, VS, LS) is never recognised as such:
      its 'S' is taken as the flags suffix first.  In particular BCS, BHS, BVS and BLS do
      not decode to B; they decode to the unknown bases BC, BH, BV and BL. */
  lemma SFlagShadowsCondition(b: string, c: string)
    requires c in {"CS", "HS", "VS", "LS"}
    ensures Decode(b + c).flags && Decode(b + c).cond != c
    ensures b == "B" ==> Decode(b + c).base == "B" + [c[0]] && Decode(b + c).cond == "AL"
  {
    FlagsOfConditionS(b, c);
    var rest := Unflagged(b + c);
    assert !EndsWith(rest, c) by {
      assert rest[|rest| - 1] == c[0] != c[1];
    }
    if b == "B" {
      assert Upper(b) == "B";
      assert rest == "B" + [c[0]];
      BranchLetterHasNoSuffix(c[0]);
    }
  }
}
