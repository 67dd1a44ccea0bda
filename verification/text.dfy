/**
 * The few JavaScript string operations the scraper relies on, over strings as
 * sequences of characters: `String.prototype.trim`, `includes`, `replace` with a
 * string pattern (first occurrence only) and `split(sep)[0]`.
 */
module Text {

  import opened Options

  /** ECMAScript WhiteSpace and LineTerminator code points: exactly what `trim` removes. */
  predicate IsSpace(c: char)
  {
    var n := c as int;
    || 0x09 <= n <= 0x0D        // tab, line feed, vertical tab, form feed, carriage return
    || n == 0x20 || n == 0xA0   // space, no-break space
    || n == 0x1680
    || 0x2000 <= n <= 0x200A
    || n == 0x2028 || n == 0x2029
    || n == 0x202F || n == 0x205F || n == 0x3000
    || n == 0xFEFF              // byte order mark
  }

  predicate AllSpace(s: string)
  {
    forall i :: 0 <= i < |s| ==> IsSpace(s[i])
  }

  lemma AllSpacePrefix(s: string, i: int)
    requires 0 <= i <= |s| && AllSpace(s[..i])
    ensures forall k :: 0 <= k < i ==> IsSpace(s[k])
  {
    forall k | 0 <= k < i ensures IsSpace(s[k]) {
      assert s[..i][k] == s[k];
    }
  }

  lemma AllSpaceSuffix(s: string, i: int)
    requires 0 <= i <= |s| && AllSpace(s[i..])
    ensures forall k :: i <= k < |s| ==> IsSpace(s[k])
  {
    forall k | i <= k < |s| ensures IsSpace(s[k]) {
      assert s[i..][k - i] == s[k];
    }
  }

  /** Neither starts nor ends with white space. */
  predicate Trimmed(s: string)
  {
    s == [] || (!IsSpace(s[0]) && !IsSpace(s[|s| - 1]))
  }

  /** Drops leading white space. */
  function TrimStart(s: string): string
  {
    if |s| > 0 && IsSpace(s[0]) then TrimStart(s[1..]) else s
  }

  /** Drops trailing white space. */
  function TrimEnd(s: string): string
  {
    if |s| > 0 && IsSpace(s[|s| - 1]) then TrimEnd(s[..|s| - 1]) else s
  }

  /** What `TrimStart` keeps is a suffix of `s` that does not start with white space; all it drops is white space. */
  lemma {:induction false} TrimStartCut(s: string)
    ensures var r := TrimStart(s);
      && |r| <= |s| && r == s[|s| - |r|..]
      && AllSpace(s[..|s| - |r|])
      && (r == [] || !IsSpace(r[0]))
  {
    if |s| > 0 && IsSpace(s[0]) {
      TrimStartCut(s[1..]);
      var r := TrimStart(s);
      assert s[..|s| - |r|] == [s[0]] + s[1..][..|s| - 1 - |r|];
    }
  }

  /** What `TrimEnd` keeps is a prefix of `s` that does not end with white space; all it drops is white space. */
  lemma {:induction false} TrimEndCut(s: string)
    ensures var r := TrimEnd(s);
      && |r| <= |s| && r == s[..|r|]
      && AllSpace(s[|r|..])
      && (r == [] || !IsSpace(r[|r| - 1]))
  {
    if |s| > 0 && IsSpace(s[|s| - 1]) {
      TrimEndCut(s[..|s| - 1]);
      var r := TrimEnd(s);
      assert s[|r|..] == s[..|s| - 1][|r|..] + [s[|s| - 1]];
    }
  }

  /** `r` is `s[i..]` cut to length `|r|`, with only white space cut away on either side. */
  predicate CutFrom(s: string, i: int, r: string)
  {
    0 <= i <= |s| - |r| && r == s[i..i + |r|] && AllSpace(s[..i]) && AllSpace(s[i + |r|..])
  }

  /** `s.trim()`. */
  function Trim(s: string): string
  {
    TrimEnd(TrimStart(s))
  }

  /**
   * What `trim` returns is a contiguous part of `s` that is itself trimmed, and
   * everything cut away on either side is white space.
   */
  lemma TrimCuts(s: string)
    ensures Trimmed(Trim(s))
    ensures CutFrom(s, |s| - |TrimStart(s)|, Trim(s))
  {
    var t := TrimStart(s);
    var r := TrimEnd(t);
    var i := |s| - |t|;
    TrimStartCut(s);
    TrimEndCut(t);
    assert t == s[i..];
    assert r == s[i..i + |r|];
    assert s[i + |r|..] == t[|r|..];
  }

  /** A character that is not white space survives `trim`, at its offset from the cut. */
  lemma TrimKeepsNonSpace(s: string, j: int)
    requires 0 <= j < |s| && !IsSpace(s[j])
    ensures var i := |s| - |TrimStart(s)|; i <= j < i + |Trim(s)| && Trim(s)[j - i] == s[j]
  {
    TrimCuts(s);
    var i := |s| - |TrimStart(s)|;
    AllSpacePrefix(s, i);
    AllSpaceSuffix(s, i + |Trim(s)|);
    assert Trim(s) == s[i..i + |Trim(s)|];
  }

  /** `trim` never introduces a character. */
  lemma TrimKeepsOut(s: string, c: char)
    requires c !in s
    ensures c !in Trim(s)
  {
    TrimCuts(s);
    var i := |s| - |TrimStart(s)|;
    var r := Trim(s);
    forall k | 0 <= k < |r| ensures r[k] != c {
      assert r[k] == s[i + k];
    }
  }

  /** Leading white space makes no difference to `TrimStart`. */
  lemma {:induction false} TrimStartAfterSpace(a: string, y: string)
    requires AllSpace(a)
    ensures TrimStart(a + y) == TrimStart(y)
  {
    if a != [] {
      assert (a + y)[1..] == a[1..] + y;
      TrimStartAfterSpace(a[1..], y);
    } else {
      assert a + y == y;
    }
  }

  lemma TrimStartSkipsSpace(a: string, t: string)
    requires AllSpace(a)
    requires t == [] || !IsSpace(t[0])
    ensures TrimStart(a + t) == t
  {
    TrimStartAfterSpace(a, t);
  }

  lemma {:induction false} TrimEndSkipsSpace(t: string, b: string)
    requires AllSpace(b)
    requires t == [] || !IsSpace(t[|t| - 1])
    ensures TrimEnd(t + b) == t
  {
    if b != [] {
      assert (t + b)[..|t + b| - 1] == t + b[..|b| - 1];
      TrimEndSkipsSpace(t, b[..|b| - 1]);
    } else {
      assert t + b == t;
    }
  }

  /**
   * Trim is determined by its characterisation: a trimmed core surrounded by white
   * space trims to exactly that core.
   */
  lemma TrimOfPadded(a: string, t: string, b: string)
    requires AllSpace(a) && AllSpace(b) && Trimmed(t)
    ensures Trim(a + t + b) == t
  {
    if t == [] {
      assert a + t + b == a + b;
      if b == [] {
        assert a + b == a + [];
        TrimStartSkipsSpace(a, []);
      } else {
        TrimStartSkipsSpace(a, []);  // a + b is all white space as well
        assert AllSpace(a + b);
        TrimStartSkipsSpace(a + b, []);
        assert a + b + [] == a + b;
      }
    } else {
      assert a + t + b == a + (t + b);
      TrimStartSkipsSpace(a, t + b);
      TrimEndSkipsSpace(t, b);
    }
  }

  /** Trimming a trimmed string changes nothing, so `trim` is idempotent. */
  lemma TrimOfTrimmed(s: string)
    requires Trimmed(s)
    ensures Trim(s) == s
  {
    assert [] + s + [] == s;
    TrimOfPadded([], s, []);
  }

  lemma TrimIdempotent(s: string)
    ensures Trim(Trim(s)) == Trim(s)
  {
    TrimCuts(s);
    TrimOfTrimmed(Trim(s));
  }

  /** Dropping a white-space prefix before trimming does not change the trimmed result. */
  lemma TrimDropsLeadingSpace(x: string, i: nat)
    requires i <= |x| && AllSpace(x[..i])
    ensures Trim(x[i..]) == Trim(x)
  {
    assert x[..i] + x[i..] == x;
    TrimStartAfterSpace(x[..i], x[i..]);
  }

  /** `pat` occurs in `s` starting at index `i`. */
  predicate OccursAt(s: string, pat: string, i: nat)
  {
    i + |pat| <= |s| && s[i..i + |pat|] == pat
  }

  /**
   * The first occurrence of `pat` at or after `from`, if any: `s.indexOf(pat, from)`
   * for `from <= |s|`. JavaScript clamps a larger `from` to `|s|`; only `from = 0` is used here.
   */
  function IndexFrom(s: string, pat: string, from: nat): Option<nat>
    decreases |s| - from
  {
    if from + |pat| > |s| then None
    else if s[from..from + |pat|] == pat then Some(from)
    else IndexFrom(s, pat, from + 1)
  }

  /** `indexOf` finds the first occurrence at or after `from`, and finds nothing only when there is none. */
  lemma {:induction false} IndexFromFirst(s: string, pat: string, from: nat)
    decreases |s| - from
    ensures var r := IndexFrom(s, pat, from);
      && (r.Some? ==> from <= r.value && OccursAt(s, pat, r.value))
      && (r.Some? ==> forall j: nat :: from <= j < r.value ==> !OccursAt(s, pat, j))
      && (r.None? ==> forall j: nat :: from <= j ==> !OccursAt(s, pat, j))
  {
    if from + |pat| <= |s| && s[from..from + |pat|] != pat {
      IndexFromFirst(s, pat, from + 1);
    }
  }

  function IndexOf(s: string, pat: string): Option<nat>
  {
    IndexFrom(s, pat, 0)
  }

  /** `s.includes(pat)`. */
  predicate Contains(s: string, pat: string)
  {
    IndexOf(s, pat).Some?
  }

  /** `includes` holds exactly when `pat` occurs somewhere in `s`. */
  lemma ContainsIffOccurs(s: string, pat: string)
    ensures Contains(s, pat) <==> exists i: nat :: OccursAt(s, pat, i)
  {
    IndexFromFirst(s, pat, 0);
    if Contains(s, pat) {
      assert OccursAt(s, pat, IndexOf(s, pat).value);
    }
  }

  lemma ContainsAt(s: string, pat: string, i: nat)
    requires OccursAt(s, pat, i)
    ensures Contains(s, pat)
  {
    ContainsIffOccurs(s, pat);
  }

  /** A pattern whose first character never appears in `s` is not included in it. */
  lemma NotContainsFirstChar(s: string, pat: string)
    requires |pat| > 0 && pat[0] !in s
    ensures !Contains(s, pat)
  {
    forall i: nat | i + |pat| <= |s| ensures !OccursAt(s, pat, i) {
      assert s[i..i + |pat|][0] == s[i];
    }
    ContainsIffOccurs(s, pat);
  }

  /**
   * `s.replace(pat, rep)` with a string pattern and a replacement without `$`
   * patterns (JavaScript expands `$&`, `$$` and the like; the scraper passes `''`):
   * only the first occurrence is replaced; with no occurrence the string comes back unchanged.
   */
  function ReplaceFirst(s: string, pat: string, rep: string): string
  {
    match IndexOf(s, pat)
    case None => s
    case Some(i) => IndexFromFirst(s, pat, 0); s[..i] + rep + s[i + |pat|..]
  }

  /** Without an occurrence of `pat`, `replace` gives back `s` unchanged. */
  lemma ReplaceAbsent(s: string, pat: string, rep: string)
    requires !Contains(s, pat)
    ensures ReplaceFirst(s, pat, rep) == s
  {
  }

  /** With an occurrence, exactly the first one is replaced. */
  lemma ReplaceFirstOccurrence(s: string, pat: string, rep: string, i: nat)
    requires OccursAt(s, pat, i) && forall j: nat :: j < i ==> !OccursAt(s, pat, j)
    ensures ReplaceFirst(s, pat, rep) == s[..i] + rep + s[i + |pat|..]
  {
    IndexFromFirst(s, pat, 0);
    assert IndexOf(s, pat) == Some(i);
  }

  /** Removing a leading occurrence of `pat` leaves exactly what followed it. */
  lemma ReplaceLeading(pat: string, v: string)
    ensures ReplaceFirst(pat + v, pat, "") == v
  {
    assert OccursAt(pat + v, pat, 0);
    ReplaceFirstOccurrence(pat + v, pat, "", 0);
    assert (pat + v)[|pat|..] == v;
  }

  /**
   * `s.split(sep)[0]`: the longest prefix of `s` without `sep`; it is either all
   * of `s` or is followed by `sep`.
   */
  function BeforeFirst(s: string, sep: char): (r: string)
    ensures sep !in r
    ensures |r| <= |s| && r == s[..|r|]
    ensures |r| < |s| ==> s[|r|] == sep
  {
    if s == [] || s[0] == sep then [] else [s[0]] + BeforeFirst(s[1..], sep)
  }

  /** A prefix without `sep` that is followed by `sep` is what `split(sep)[0]` returns. */
  lemma {:induction false} BeforeFirstAt(s: string, sep: char, y: string)
    requires |y| < |s| && s[..|y|] == y && sep !in y && s[|y|] == sep
    ensures BeforeFirst(s, sep) == y
  {
    if y != [] {
      assert s[0] == y[0];
      assert s[1..][..|y| - 1] == y[1..];
      BeforeFirstAt(s[1..], sep, y[1..]);
      assert [s[0]] + y[1..] == y;
    }
  }

  lemma BeforeFirstWithoutSep(s: string, sep: char)
    requires sep !in s
    ensures BeforeFirst(s, sep) == s
  {
  }
}
