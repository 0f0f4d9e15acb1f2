/** Line identifiers of the form "<prefix>|<local>", where the prefix is an ensemble
    member (or, in one reader, an hour offset) and the local part the line's number. */
module LineIds {
  import opened Text

  /** `f"{prefix}|{local}"` in Python, `fmt.Sprintf("%d|%d", prefix, local)` in Go. */
  function LineId(prefix: int, local: int): string {
    IntToString(prefix) + "|" + IntToString(local)
  }

  /** Index of the first '|', or the length when there is none. */
  function BarIndex(s: string): (k: nat)
    ensures k <= |s|
    ensures '|' !in s[..k]
    ensures k < |s| ==> s[k] == '|'
  {
    if |s| == 0 then 0 else if s[0] == '|' then 0 else 1 + BarIndex(s[1..])
  }

  /** `a, b = s.split("|")` succeeds exactly when `s` holds one '|'. */
  predicate WellFormed(s: string) {
    BarIndex(s) < |s| && '|' !in s[BarIndex(s) + 1..]
  }

  /** The ensemble part, before the '|'. */
  function Prefix(s: string): string {
    s[..BarIndex(s)]
  }

  /** The local part, after the '|'. */
  function Local(s: string): string
    requires WellFormed(s)
  {
    s[BarIndex(s) + 1..]
  }

  lemma Decompose(s: string)
    requires WellFormed(s)
    ensures s == Prefix(s) + "|" + Local(s)
  {
  }

  /** Two well-formed ids with the same two parts are the same id. */
  lemma PartsDetermineId(a: string, b: string)
    requires WellFormed(a) && WellFormed(b)
    requires Prefix(a) == Prefix(b) && Local(a) == Local(b)
    ensures a == b
  {
    Decompose(a);
    Decompose(b);
  }

  lemma {:induction false} BarIndexOfJoin(x: string, y: string)
    requires '|' !in x
    ensures BarIndex(x + "|" + y) == |x|
  {
    if |x| > 0 {
      assert (x + "|" + y)[1..] == x[1..] + "|" + y;
      BarIndexOfJoin(x[1..], y);
    }
  }

  /** A formatted id splits back into the texts of its two numbers. */
  lemma {:induction false} LineIdParts(prefix: int, local: int)
    ensures WellFormed(LineId(prefix, local))
    ensures Prefix(LineId(prefix, local)) == IntToString(prefix)
    ensures Local(LineId(prefix, local)) == IntToString(local)
  {
    IntToStringHasNoBar(prefix);
    IntToStringHasNoBar(local);
    var p, l := IntToString(prefix), IntToString(local);
    BarIndexOfJoin(p, l);
    assert (p + "|" + l)[|p| + 1..] == l;
    assert (p + "|" + l)[..|p|] == p;
  }

  /** Distinct (prefix, local) pairs give distinct ids. */
  lemma LineIdInjective(p1: int, l1: int, p2: int, l2: int)
    requires LineId(p1, l1) == LineId(p2, l2)
    ensures p1 == p2 && l1 == l2
  {
    LineIdParts(p1, l1);
    LineIdParts(p2, l2);
    IntToStringInjective(p1, p2);
    IntToStringInjective(l1, l2);
  }
}
