/** The scanner that finds the variables a text refers to: a `$`, then a name up to a delimiter. */
module References {

  datatype ReferenceKind = RangeReferenceKind | RegularReferenceKind

  datatype Reference = Reference(kind: ReferenceKind, value: string)

  predicate IsDelimiter(c: char) {
    c == '.' || c == ' ' || c == ')' || c == '['
  }

  // ----- which segments of a text are references -----

  /** s[i] is a `$`, and what follows runs without a further one to the first delimiter, or to the end. */
  predicate IsRef(s: string, i: nat, j: nat) {
    && i < j <= |s| && s[i] == '$'
    && (forall k :: i < k < j ==> s[k] != '$' && !IsDelimiter(s[k]))
    && (j < |s| ==> IsDelimiter(s[j]))
  }

  /** The first position from k on that holds a delimiter or a `$`; the length of s if there is none. */
  function Stop(s: string, k: nat): (j: nat)
    requires k <= |s|
    ensures k <= j <= |s|
    ensures forall m :: k <= m < j ==> s[m] != '$' && !IsDelimiter(s[m])
    ensures j < |s| ==> s[j] == '$' || IsDelimiter(s[j])
    decreases |s| - k
  {
    if k == |s| || s[k] == '$' || IsDelimiter(s[k]) then k else Stop(s, k + 1)
  }

  /** The name that begins after position i, if any. */
  function NameAt(s: string, i: nat): seq<string>
    requires i < |s|
  {
    if s[i] == '$' && (Stop(s, i + 1) < |s| ==> s[Stop(s, i + 1)] != '$') then [s[i + 1..Stop(s, i + 1)]] else []
  }

  /** The names that begin at positions from i up to k, in order. */
  function Names(s: string, i: nat, k: nat): seq<string>
    requires i <= k <= |s|
    decreases k - i
  {
    if i == k then [] else Names(s, i, k - 1) + NameAt(s, k - 1)
  }

  function Refs(s: string): seq<string> {
    Names(s, 0, |s|)
  }

  lemma StopUnique(s: string, i: nat, j: nat)
    requires IsRef(s, i, j)
    ensures Stop(s, i + 1) == j && NameAt(s, i) == [s[i + 1..j]]
  {
    var st := Stop(s, i + 1);
    assert st >= j;
    assert j == st;
  }

  /** Exactly the reference segments are found. */
  lemma {:induction false} FoundIff(s: string, k: nat, x: string)
    requires k <= |s|
    ensures x in Names(s, 0, k) <==> exists i: nat, j: nat :: i < k && IsRef(s, i, j) && x == s[i + 1..j]
    decreases k
  {
    if k > 0 {
      FoundIff(s, k - 1, x);
      if x in NameAt(s, k - 1) {
        assert IsRef(s, k - 1, Stop(s, k));
      }
      if i: nat, j: nat :| i < k && IsRef(s, i, j) && x == s[i + 1..j] {
        StopUnique(s, i, j);
        if i < k - 1 { assert x in Names(s, 0, k - 1); }
      }
    }
  }

  lemma RefsIff(s: string, x: string)
    ensures x in Refs(s) <==> exists i: nat, j: nat :: IsRef(s, i, j) && x == s[i + 1..j]
  {
    FoundIff(s, |s|, x);
    if i: nat, j: nat :| IsRef(s, i, j) && x == s[i + 1..j] {
      assert i < |s|;
    }
  }

  // ----- texts side by side -----

  lemma {:induction false} NamesSplit(s: string, i: nat, m: nat, k: nat)
    requires i <= m <= k <= |s|
    ensures Names(s, i, k) == Names(s, i, m) + Names(s, m, k)
    decreases k
  {
    if m < k { NamesSplit(s, i, m, k - 1); }
  }

  /** Before a delimiter, what comes after does not matter. */
  lemma {:induction false} StopBefore(s: string, t: string, k: nat)
    requires k <= |s| && (t != "" ==> IsDelimiter(t[0]))
    ensures Stop(s + t, k) == Stop(s, k)
    decreases |s| - k
  {
    if k < |s| {
      assert (s + t)[k] == s[k];
      if s[k] != '$' && !IsDelimiter(s[k]) { StopBefore(s, t, k + 1); }
    }
  }

  lemma {:induction false} NamesBefore(s: string, t: string, k: nat)
    requires k <= |s| && (t != "" ==> IsDelimiter(t[0]))
    ensures Names(s + t, 0, k) == Names(s, 0, k)
    decreases k
  {
    if k > 0 {
      NamesBefore(s, t, k - 1);
      StopBefore(s, t, k);
      assert (s + t)[k - 1] == s[k - 1];
      var j := Stop(s, k);
      assert (s + t)[k..j] == s[k..j];
      assert j < |s| ==> (s + t)[j] == s[j];
    }
  }

  lemma {:induction false} StopShift(s: string, t: string, k: nat)
    requires k <= |t|
    ensures Stop(s + t, |s| + k) == |s| + Stop(t, k)
    decreases |t| - k
  {
    if k < |t| {
      assert (s + t)[|s| + k] == t[k];
      if t[k] != '$' && !IsDelimiter(t[k]) { StopShift(s, t, k + 1); }
    }
  }

  lemma NameAtShift(s: string, t: string, i: nat)
    requires i < |t|
    ensures NameAt(s + t, |s| + i) == NameAt(t, i)
  {
    StopShift(s, t, i + 1);
    assert (s + t)[|s| + i] == t[i];
    var j := Stop(t, i + 1);
    assert (s + t)[|s| + i + 1..|s| + j] == t[i + 1..j];
    assert j < |t| ==> (s + t)[|s| + j] == t[j];
  }

  lemma {:induction false} NamesShift(s: string, t: string, k: nat)
    requires k <= |t|
    ensures Names(s + t, |s|, |s| + k) == Names(t, 0, k)
    decreases k
  {
    hide NameAt;
    if k > 0 {
      NamesShift(s, t, k - 1);
      NameAtShift(s, t, k - 1);
    }
  }

  lemma NoNameAt(s: string, i: nat)
    requires i < |s| && s[i] != '$'
    ensures Names(s, i, i + 1) == []
  {}

  /** Texts with a delimiter between them are scanned one by one. */
  lemma RefsApart(s: string, d: char, t: string)
    requires IsDelimiter(d)
    ensures Refs(s + [d] + t) == Refs(s) + Refs(t)
  {
    hide Names, NameAt;
    var u := s + [d] + t;
    NamesSplit(u, 0, |s|, |u|);
    NamesSplit(u, |s|, |s| + 1, |u|);
    NoNameAt(u, |s|);
    assert u == s + ([d] + t);
    NamesBefore(s, [d] + t, |s|);
    assert u == (s + [d]) + t && |s + [d]| == |s| + 1;
    NamesShift(s + [d], t, |t|);
  }

  // ----- names written out -----

  predicate IsName(n: string) {
    forall c :: c in n ==> c != '$' && !IsDelimiter(c)
  }

  function Print(names: seq<string>): string {
    if names == [] then "" else if |names| == 1 then "$" + names[0] else "$" + names[0] + " " + Print(names[1..])
  }

  lemma FirstName(s: string)
    requires s != ""
    ensures Names(s, 0, 1) == NameAt(s, 0)
  {
    assert Names(s, 0, 0) == [];
  }

  lemma RefsOfOne(n: string)
    requires IsName(n)
    ensures Refs("$" + n) == [n]
  {
    hide Names;
    var s := "$" + n;
    NameAtStart(s);
    NamesSplit(s, 0, 1, |s|);
    FirstName(s);
    NoneAfter(s, 1, |s|);
  }

  lemma NameAtStart(s: string)
    requires s != "" && s[0] == '$' && IsName(s[1..])
    ensures NameAt(s, 0) == [s[1..]]
    ensures forall k :: 0 < k < |s| ==> s[k] != '$'
  {
    assert forall k :: 0 < k < |s| ==> s[k] == s[1..][k - 1] && s[k] in s[1..];
    StopUnique(s, 0, |s|);
    assert s[0 + 1..|s|] == s[1..];
  }

  /** A name ends at a dot, a blank, a closing parenthesis and an opening bracket, and what follows is
      scanned on its own. */
  lemma NameEnds(n: string, c: char, t: string)
    requires forall m :: m in n ==> m !in {'$', '.', ' ', ')', '['}
    requires c in {'.', ' ', ')', '['}
    ensures Refs("$" + n + [c] + t) == [n] + Refs(t)
  {
    RefsOfOne(n);
    RefsApart("$" + n, c, t);
  }

  /** It does not end at any other character. */
  lemma NameGoesOn(n: string, c: char)
    requires forall m :: m in n + [c] ==> m !in {'$', '.', ' ', ')', '['}
    ensures Refs("$" + n + [c]) == [n + [c]]
  {
    RefsOfOne(n + [c]);
    assert "$" + n + [c] == "$" + (n + [c]);
  }

  lemma {:induction false} NoneAfter(s: string, i: nat, k: nat)
    requires i <= k <= |s| && forall m :: i <= m < k ==> s[m] != '$'
    ensures Names(s, i, k) == []
    decreases k
  {
    if i < k { NoneAfter(s, i, k - 1); }
  }

  /** Names written as references are read back. */
  lemma {:induction false} PrintedIsRead(names: seq<string>)
    requires forall n :: n in names ==> IsName(n)
    ensures Refs(Print(names)) == names
    decreases |names|
  {
    if |names| == 1 {
      RefsOfOne(names[0]);
    } else if |names| > 1 {
      RefsOfOne(names[0]);
      PrintedIsRead(names[1..]);
      RefsApart("$" + names[0], ' ', Print(names[1..]));
    }
  }

  // ----- the code -----

  function KindOf(n: string): ReferenceKind {
    if n in {"VALUE", "KEY", "INDEX"} then RangeReferenceKind else RegularReferenceKind
  }

  function ToReferences(ns: seq<string>): (rs: seq<Reference>)
    ensures |rs| == |ns| && forall i :: 0 <= i < |ns| ==> rs[i] == Reference(KindOf(ns[i]), ns[i])
  {
    seq(|ns|, i requires 0 <= i < |ns| => Reference(KindOf(ns[i]), ns[i]))
  }

  class Scanner {
    var refs: seq<Reference>

    constructor ()
      ensures refs == []
    {
      refs := [];
    }

    method AddReference(val: string)
      modifies this
      ensures refs == old(refs) + ToReferences([val])
    {
      if val == "VALUE" || val == "KEY" || val == "INDEX" {
        refs := refs + [Reference(RangeReferenceKind, val)];
      } else {
        refs := refs + [Reference(RegularReferenceKind, val)];
      }
    }

    /** A scanner keeps the references of earlier texts in front. */
    method GetReferences(s: string) returns (r: seq<Reference>)
      modifies this
      ensures r == refs == old(refs) + ToReferences(Refs(s))
    {
      hide Names, ToReferences;
      var idx, found := 0, false;
      ghost var done: seq<string> := [];
      ghost var base := refs;
      Nothing(s);
      for k := 0 to |s|
        invariant refs == base + ToReferences(done)
        invariant !found ==> done == Names(s, 0, k)
        invariant found ==> Pending(s, idx, k) && done == Names(s, 0, idx)
      {
        var v := s[k];
        if v == '$' {
          if found { Superseded(s, idx, k); }
          found := true;
          idx := k;
          continue;
        }
        if (v == '.' || v == ' ' || v == ')' || v == '[') && found {
          Completed(s, idx, k);
          AddReference(s[idx + 1..k]);
          Appended(done, s[idx + 1..k]);
          done := done + [s[idx + 1..k]];
          NoneAfter(s, idx + 1, k + 1);
          NamesSplit(s, 0, idx + 1, k + 1);
          found := false;
        } else if !found {
          NoNameAt(s, k);
          NamesSplit(s, 0, k, k + 1);
        }
      }
      if found {
        Completed(s, idx, |s|);
        assert s[idx + 1..] == s[idx + 1..|s|];
        AddReference(s[idx + 1..]);
        Appended(done, s[idx + 1..]);
        NoneAfter(s, idx + 1, |s|);
        NamesSplit(s, 0, idx + 1, |s|);
      }
      return refs;
    }
  }

  /** The scanner has seen a `$` at i and nothing since that would end its name. */
  predicate Pending(s: string, i: nat, k: nat) {
    && i < k <= |s| && s[i] == '$'
    && forall m :: i < m < k ==> s[m] != '$' && !IsDelimiter(s[m])
  }

  lemma Nothing(s: string)
    ensures Names(s, 0, 0) == [] && ToReferences([]) == []
  {}

  lemma Appended(ns: seq<string>, n: string)
    ensures ToReferences(ns + [n]) == ToReferences(ns) + ToReferences([n])
  {}

  lemma Completed(s: string, i: nat, j: nat)
    requires IsRef(s, i, j)
    ensures Names(s, 0, i + 1) == Names(s, 0, i) + [s[i + 1..j]]
  {
    StopUnique(s, i, j);
  }

  /** A `$` followed by a `$` before any delimiter is no reference. */
  lemma Superseded(s: string, i: nat, k: nat)
    requires k < |s| && Pending(s, i, k) && s[k] == '$'
    ensures Names(s, 0, k) == Names(s, 0, i)
  {
    var st := Stop(s, i + 1);
    assert st == k;
    NoneAfter(s, i + 1, k);
    NamesSplit(s, 0, i + 1, k);
  }
}
