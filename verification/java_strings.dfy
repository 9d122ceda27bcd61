/**
 * The part of `java.lang.String` that `setCWE` relies on: `split` with a
 * one-character separator and no limit, which drops trailing empty strings
 * and returns the whole string when the separator does not occur.
 */
module JavaStrings {

  /** The text before the first `c` (all of `s` if there is none). */
  function TakeUntil(s: string, c: char): (r: string)
    ensures c !in r
    ensures r <= s
  {
    if s == [] then [] else if s[0] == c then [] else [s[0]] + TakeUntil(s[1..], c)
  }

  /** The text after the first `c` (empty if there is none). */
  function DropThrough(s: string, c: char): (r: string)
    ensures c in s ==> |r| < |s|
  {
    if s == [] then [] else if s[0] == c then s[1..] else DropThrough(s[1..], c)
  }

  lemma {:induction false} Decompose(s: string, c: char)
    requires c in s
    ensures s == TakeUntil(s, c) + [c] + DropThrough(s, c)
  {
    if s[0] != c {
      assert c in s[1..];
      Decompose(s[1..], c);
      assert s == [s[0]] + s[1..];
    }
  }

  lemma {:induction false} NoSeparator(s: string, c: char)
    requires c !in s
    ensures TakeUntil(s, c) == s
  {
    if s != [] {
      assert c !in s[1..];
      NoSeparator(s[1..], c);
      assert s == [s[0]] + s[1..];
    }
  }

  /** A prefix that ends before a separator: the text up to the first separator of the whole. */
  lemma {:induction false} TakeUntilPrefix(u: string, s: string, c: char)
    requires c !in u
    ensures TakeUntil(u + [c] + s, c) == u
    ensures DropThrough(u + [c] + s, c) == s
  {
    if u != [] {
      assert (u + [c] + s)[1..] == u[1..] + [c] + s;
      assert c !in u[1..];
      TakeUntilPrefix(u[1..], s, c);
    }
  }

  /** Text free of the separator passes through `TakeUntil` whole. */
  lemma {:induction false} TakeUntilAppend(u: string, s: string, c: char)
    requires c !in u
    ensures TakeUntil(u + s, c) == u + TakeUntil(s, c)
  {
    if u != [] {
      assert (u + s)[1..] == u[1..] + s;
      assert c !in u[1..];
      TakeUntilAppend(u[1..], s, c);
      assert u == [u[0]] + u[1..];
    } else {
      assert u + s == s;
    }
  }

  /** Every piece between separators, empty pieces included. */
  function SplitAll(s: string, c: char): (r: seq<string>)
    ensures |r| >= 1
    ensures forall i | 0 <= i < |r| :: c !in r[i]
    decreases |s|
  {
    if c in s then [TakeUntil(s, c)] + SplitAll(DropThrough(s, c), c) else [s]
  }

  /** The list without its trailing empty strings. */
  function StripTrailingEmpty(xs: seq<string>): (r: seq<string>)
    ensures r <= xs
    ensures r == [] || r[|r| - 1] != ""
    ensures forall i | |r| <= i < |xs| :: xs[i] == ""
  {
    if xs == [] then []
    else if xs[|xs| - 1] == "" then StripTrailingEmpty(xs[..|xs| - 1])
    else xs
  }

  /**
   * `s.split(c)` for a one-character separator `c`: the text itself when it
   * holds no separator, otherwise the separator-free pieces with trailing
   * empty ones removed.
   */
  function Split(s: string, c: char): (r: seq<string>)
    ensures forall i | 0 <= i < |r| :: c !in r[i]
    ensures c !in s ==> r == [s]
    ensures c in s ==> r == [] || r[|r| - 1] != ""
  {
    if c in s then StripTrailingEmpty(SplitAll(s, c)) else [s]
  }

  predicate HasOther(s: string, c: char)
  {
    exists i :: 0 <= i < |s| && s[i] != c
  }

  predicate AnyNonEmpty(xs: seq<string>)
  {
    exists i :: 0 <= i < |xs| && xs[i] != ""
  }

  /** Some piece of `s` is non-empty exactly when `s` holds a character other than the separator. */
  lemma {:induction false} SplitAllHasText(s: string, c: char)
    ensures AnyNonEmpty(SplitAll(s, c)) <==> HasOther(s, c)
    decreases |s|
  {
    var parts := SplitAll(s, c);
    if c in s {
      var t, d := TakeUntil(s, c), DropThrough(s, c);
      Decompose(s, c);
      SplitAllHasText(d, c);
      assert parts == [t] + SplitAll(d, c);
      if HasOther(s, c) {
        var i :| 0 <= i < |s| && s[i] != c;
        if i < |t| {
          assert t[i] == s[i];
          assert parts[0] != "";
        } else {
          assert i > |t|;
          assert d[i - |t| - 1] == s[i];
          var k :| 0 <= k < |SplitAll(d, c)| && SplitAll(d, c)[k] != "";
          assert parts[k + 1] != "";
        }
      }
      if AnyNonEmpty(parts) {
        var k :| 0 <= k < |parts| && parts[k] != "";
        if k == 0 {
          assert s[0] == t[0];
        } else {
          assert SplitAll(d, c)[k - 1] != "";
          var i :| 0 <= i < |d| && d[i] != c;
          assert s[|t| + 1 + i] == d[i];
        }
      }
    } else {
      assert parts == [s];
      if s != "" {
        assert s[0] != c;
      }
      if HasOther(s, c) {
        assert parts[0] != "";
      }
    }
  }

  /** `Split` yields at least two pieces exactly when a non-empty piece follows the first separator. */
  lemma SplitHasSecond(s: string, c: char)
    ensures |Split(s, c)| >= 2 <==> c in s && HasOther(DropThrough(s, c), c)
    ensures |Split(s, c)| >= 2 ==> Split(s, c)[1] == TakeUntil(DropThrough(s, c), c)
  {
    if c in s {
      var d := DropThrough(s, c);
      var all := SplitAll(s, c);
      assert all == [TakeUntil(s, c)] + SplitAll(d, c);
      SplitAllHasText(d, c);
      var r := StripTrailingEmpty(all);
      if HasOther(d, c) {
        var k :| 0 <= k < |SplitAll(d, c)| && SplitAll(d, c)[k] != "";
        assert all[k + 1] != "";
      }
      if |r| >= 2 {
        assert all[|r| - 1] != "";
        assert SplitAll(d, c)[|r| - 2] != "";
        assert r[1] == all[1];
        if c in d {
          assert SplitAll(d, c)[0] == TakeUntil(d, c);
        } else {
          NoSeparator(d, c);
        }
      }
    }
  }

  /** The first piece of `Split` is the text before the first separator, when there is a first piece. */
  lemma SplitFirst(s: string, c: char)
    ensures |Split(s, c)| == 0 ==> TakeUntil(s, c) == ""
    ensures |Split(s, c)| >= 1 ==> Split(s, c)[0] == TakeUntil(s, c)
  {
    if c in s {
      var all := SplitAll(s, c);
      assert all[0] == TakeUntil(s, c);
    } else {
      NoSeparator(s, c);
    }
  }
}
