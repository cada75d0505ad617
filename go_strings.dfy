/**
 * The parts of Go's `strings` package that the progress logger relies on,
 * specialised to the one-byte separators it uses. A Go string is a sequence
 * of bytes; here each byte is one `char`.
 */
module GoStrings {

  /** strings.Count with a one-byte pattern: the occurrences of `c` in `s`. */
  function Count(s: string, c: char): nat
  {
    if s == [] then 0 else (if s[0] == c then 1 else 0) + Count(s[1..], c)
  }

  lemma {:induction false} CountAppend(a: string, b: string, c: char)
    ensures Count(a + b, c) == Count(a, c) + Count(b, c)
  {
    if a == [] {
      assert a + b == b;
    } else {
      assert (a + b)[1..] == a[1..] + b;
      CountAppend(a[1..], b, c);
    }
  }

  /** No occurrence of `c` means a count of zero, and back. */
  lemma {:induction false} CountZero(s: string, c: char)
    ensures Count(s, c) == 0 <==> c !in s
  {
    if s != [] {
      CountZero(s[1..], c);
      assert s == [s[0]] + s[1..];
    }
  }

  /** strings.HasSuffix */
  predicate HasSuffix(s: string, suffix: string)
  {
    |suffix| <= |s| && s[|s| - |suffix|..] == suffix
  }

  /** strings.TrimSuffix: `s` without one trailing `suffix`, if it ends in one. */
  function TrimSuffix(s: string, suffix: string): (r: string)
    ensures HasSuffix(s, suffix) ==> r + suffix == s
    ensures !HasSuffix(s, suffix) ==> r == s
  {
    if HasSuffix(s, suffix) then s[..|s| - |suffix|] else s
  }

  /**
   * strings.ReplaceAll(s, "\r\n", "\n"): a left-to-right scan that replaces
   * each non-overlapping CR LF pair by a single LF.
   */
  function ReplaceCRLF(s: string): string
  {
    if s == [] then s
    else if |s| >= 2 && s[0] == '\r' && s[1] == '\n' then ['\n'] + ReplaceCRLF(s[2..])
    else [s[0]] + ReplaceCRLF(s[1..])
  }

  /**
   * The rewrite keeps every LF (each pair trades its CR LF for one LF), never
   * lengthens the text, and leaves text holding no CR LF pair as it was.
   */
  lemma {:induction false} ReplaceCRLFFacts(s: string)
    ensures var r := ReplaceCRLF(s);
      && Count(r, '\n') == Count(s, '\n')
      && |r| <= |s|
      && ('\r' !in s ==> r == s)
      && ((forall i :: 0 <= i < |s| - 1 ==> !(s[i] == '\r' && s[i + 1] == '\n')) ==> r == s)
    decreases |s|
  {
    if s == [] {
    } else if |s| >= 2 && s[0] == '\r' && s[1] == '\n' {
      ReplaceCRLFFacts(s[2..]);
      var rest := ReplaceCRLF(s[2..]);
      assert s[1..][1..] == s[2..];
      assert (['\n'] + rest)[1..] == rest;
    } else {
      var t := s[1..];
      ReplaceCRLFFacts(t);
      var rest := ReplaceCRLF(t);
      assert ([s[0]] + rest)[1..] == rest;
      assert s == [s[0]] + t;
      if forall i :: 0 <= i < |s| - 1 ==> !(s[i] == '\r' && s[i + 1] == '\n') {
        forall i | 0 <= i < |t| - 1
          ensures !(t[i] == '\r' && t[i + 1] == '\n')
        {
          assert t[i] == s[i + 1] && t[i + 1] == s[i + 2];
        }
      }
    }
  }

  /**
   * The rewrite distributes over a concatenation unless a CR ending `a` and an
   * LF starting `b` would form a pair across the cut.
   */
  lemma {:induction false} ReplaceCRLFAppend(a: string, b: string)
    requires a == [] || b == [] || !(a[|a| - 1] == '\r' && b[0] == '\n')
    ensures ReplaceCRLF(a + b) == ReplaceCRLF(a) + ReplaceCRLF(b)
    decreases |a|
  {
    if a == [] {
      assert a + b == b;
    } else {
      var s := a + b;
      if |a| >= 2 && a[0] == '\r' && a[1] == '\n' {
        assert s[0] == '\r' && s[1] == '\n';
        assert s[2..] == a[2..] + b;
        ReplaceCRLFAppend(a[2..], b);
        assert ReplaceCRLF(s) == ['\n'] + ReplaceCRLF(s[2..]);
      } else {
        assert s[0] == a[0];
        assert |a| >= 2 ==> s[1] == a[1];
        assert s[1..] == a[1..] + b;
        ReplaceCRLFAppend(a[1..], b);
        assert ReplaceCRLF(s) == [s[0]] + ReplaceCRLF(s[1..]);
      }
    }
  }

  /**
   * Each CR LF pair becomes one LF, and the text on either side is rewritten
   * on its own: a CR ending `p` does not pair with the CR of the pair.
   */
  lemma ReplaceCRLFSplice(p: string, q: string)
    ensures ReplaceCRLF(p + "\r\n" + q) == ReplaceCRLF(p) + "\n" + ReplaceCRLF(q)
  {
    var t := "\r\n" + q;
    assert t[2..] == q;
    assert p + "\r\n" + q == p + t;
    ReplaceCRLFAppend(p, t);
  }

  /** strings.Join(parts, string(sep)) */
  function Join(parts: seq<string>, sep: char): string
  {
    if parts == [] then ""
    else if |parts| == 1 then parts[0]
    else parts[0] + [sep] + Join(parts[1..], sep)
  }

  /**
   * strings.Split(s, string(sep)): the pieces of `s` between separators. An
   * empty `s` gives one empty piece, so there is always one piece more than
   * there are separators.
   */
  function Split(s: string, sep: char): (r: seq<string>)
    ensures |r| == Count(s, sep) + 1
    ensures forall i :: 0 <= i < |r| ==> sep !in r[i]
    ensures Join(r, sep) == s
  {
    if s == [] then [""]
    else
      var rest := Split(s[1..], sep);
      if s[0] == sep then
        assert s == [sep] + s[1..];
        [""] + rest
      else
        var r := [[s[0]] + rest[0]] + rest[1..];
        assert r[1..] == rest[1..];
        assert forall i :: 1 <= i < |r| ==> r[i] == rest[i];
        assert |rest| > 1 ==> Join(rest, sep) == rest[0] + [sep] + Join(rest[1..], sep);
        assert s == [s[0]] + s[1..];
        r
  }

  /** A piece holding no separator splits into itself. */
  lemma {:induction false} SplitNoSeparator(p: string, sep: char)
    requires sep !in p
    ensures Split(p, sep) == [p]
  {
    CountZero(p, sep);
    var r := Split(p, sep);
    assert |r| == 1;
    assert Join(r, sep) == r[0];
  }

  /** Splitting a separator-free piece, a separator and a tail. */
  lemma {:induction false} SplitCons(p: string, sep: char, tail: string)
    requires sep !in p
    ensures Split(p + [sep] + tail, sep) == [p] + Split(tail, sep)
  {
    if p == [] {
      assert p + [sep] + tail == [sep] + tail;
      assert ([sep] + tail)[1..] == tail;
    } else {
      var s := p + [sep] + tail;
      assert s[1..] == p[1..] + [sep] + tail;
      SplitCons(p[1..], sep, tail);
      assert s[0] == p[0] && s[0] != sep;
      var rest := Split(s[1..], sep);
      assert rest == [p[1..]] + Split(tail, sep);
      assert [p[0]] + p[1..] == p;
    }
  }

  /** Joining separator-free pieces and splitting again gives the pieces back. */
  lemma {:induction false} SplitJoin(parts: seq<string>, sep: char)
    requires |parts| > 0
    requires forall i :: 0 <= i < |parts| ==> sep !in parts[i]
    ensures Split(Join(parts, sep), sep) == parts
  {
    if |parts| == 1 {
      SplitNoSeparator(parts[0], sep);
    } else {
      SplitJoin(parts[1..], sep);
      SplitCons(parts[0], sep, Join(parts[1..], sep));
      assert [parts[0]] + parts[1..] == parts;
    }
  }
}
