/**
 The few operations of Go's `strings` package that the document builder
 uses, on `string` = `seq<char>`.
 */
module GoStrings {

  /** strings.HasPrefix */
  predicate HasPrefix(s: string, prefix: string)
  {
    |prefix| <= |s| && s[..|prefix|] == prefix
  }

  /** strings.TrimPrefix */
  function TrimPrefix(s: string, prefix: string): (r: string)
    ensures HasPrefix(s, prefix) ==> prefix + r == s
    ensures !HasPrefix(s, prefix) ==> r == s
  {
    if HasPrefix(s, prefix) then s[|prefix|..] else s
  }

  /** Index of the first occurrence of `c` in `s`. */
  function IndexOf(s: string, c: char): (i: nat)
    requires c in s
    ensures i < |s| && s[i] == c && c !in s[..i]
  {
    if s[0] == c then 0 else 1 + IndexOf(s[1..], c)
  }

  /** strings.Replace(s, c, "", 1) for a one-character pattern `c`. */
  function RemoveFirst(s: string, c: char): string
  {
    if s == [] then []
    else if s[0] == c then s[1..]
    else [s[0]] + RemoveFirst(s[1..], c)
  }

  /** Only the first `c` goes; a string without `c` is returned unchanged. */
  lemma {:induction false} RemoveFirstSpec(s: string, c: char)
    ensures c !in s ==> RemoveFirst(s, c) == s
    ensures c in s ==> RemoveFirst(s, c) == s[..IndexOf(s, c)] + s[IndexOf(s, c) + 1..]
  {
    if s != [] && s[0] != c {
      RemoveFirstSpec(s[1..], c);
      if c in s {
        assert c in s[1..];
        assert s[..IndexOf(s, c)] == [s[0]] + s[1..][..IndexOf(s[1..], c)];
      } else {
        assert s == [s[0]] + s[1..];
      }
    }
  }

  /** `pat` occurs in `s` at position `i`. */
  predicate OccursAt(s: string, pat: string, i: nat)
  {
    i + |pat| <= |s| && s[i..i + |pat|] == pat
  }

  /**
   strings.Replace(s, pat, "", -1) for a non-empty pattern: one left-to-right
   pass that deletes every non-overlapping occurrence.
   */
  function RemoveAll(s: string, pat: string): string
    requires pat != []
    decreases |s|
  {
    if |s| < |pat| then s
    else if s[..|pat|] == pat then RemoveAll(s[|pat|..], pat)
    else [s[0]] + RemoveAll(s[1..], pat)
  }

  /** Deleting never lengthens, and a string without the pattern is returned unchanged. */
  lemma {:induction false} RemoveAllSpec(s: string, pat: string)
    requires pat != []
    ensures |RemoveAll(s, pat)| <= |s|
    ensures (forall i :: 0 <= i < |s| ==> !OccursAt(s, pat, i)) ==> RemoveAll(s, pat) == s
    decreases |s|
  {
    if |s| >= |pat| {
      if s[..|pat|] == pat {
        assert OccursAt(s, pat, 0);
        RemoveAllSpec(s[|pat|..], pat);
      } else {
        assert forall i :: 0 <= i < |s| - 1 ==> (OccursAt(s[1..], pat, i) <==> OccursAt(s, pat, i + 1));
        RemoveAllSpec(s[1..], pat);
        assert s == [s[0]] + s[1..];
      }
    }
  }

  /** The parts of `parts` put back together with `sep` between them. */
  function Join(parts: seq<string>, sep: char): string
  {
    if parts == [] then ""
    else if |parts| == 1 then parts[0]
    else parts[0] + [sep] + Join(parts[1..], sep)
  }

  /**
   strings.Split(s, sep) for a one-character separator: the pieces between
   separators, one more piece than there are separators (so "" splits to [""]).
   */
  function Split(s: string, sep: char): (parts: seq<string>)
    ensures |parts| >= 1
    decreases |s|
  {
    if sep !in s then [s]
    else
      var i := IndexOf(s, sep);
      [s[..i]] + Split(s[i + 1..], sep)
  }

  /** No piece holds the separator. */
  lemma {:induction false} SplitPieces(s: string, sep: char)
    ensures forall k :: 0 <= k < |Split(s, sep)| ==> sep !in Split(s, sep)[k]
    decreases |s|
  {
    if sep in s {
      var i := IndexOf(s, sep);
      SplitPieces(s[i + 1..], sep);
    }
  }

  /**
   Go's replace loop: the leftmost occurrence goes, the text before it is
   kept as it is, and the pass resumes right after it.
   */
  lemma {:induction false} RemoveAllLeftmost(s: string, pat: string, i: nat)
    requires pat != []
    requires OccursAt(s, pat, i)
    requires forall j :: 0 <= j < i ==> !OccursAt(s, pat, j)
    ensures RemoveAll(s, pat) == s[..i] + RemoveAll(s[i + |pat|..], pat)
    decreases i
  {
    if i == 0 {
      assert s[..|pat|] == pat;
    } else {
      var t, x := s[1..], RemoveAll(s[i + |pat|..], pat);
      calc {
        RemoveAll(s, pat);
      == { RemoveAllSkip(s, pat, i); }
        [s[0]] + RemoveAll(t, pat);
      == { NoEarlierInTail(s, pat, i); RemoveAllLeftmost(t, pat, i - 1); assert t[i - 1 + |pat|..] == s[i + |pat|..]; }
        [s[0]] + (t[..i - 1] + x);
      == { TailSlices(s, i, x); }
        s[..i] + x;
      }
    }
  }

  lemma TailSlices(s: string, i: nat, x: string)
    requires 0 < i <= |s|
    ensures [s[0]] + (s[1..][..i - 1] + x) == s[..i] + x
  {
    assert s[..i] == [s[0]] + s[1..][..i - 1];
  }

  /** Dropping the first character moves every occurrence one place left. */
  lemma NoEarlierInTail(s: string, pat: string, i: nat)
    requires 0 < i && OccursAt(s, pat, i)
    requires forall j :: 0 <= j < i ==> !OccursAt(s, pat, j)
    ensures OccursAt(s[1..], pat, i - 1)
    ensures forall j :: 0 <= j < i - 1 ==> !OccursAt(s[1..], pat, j)
  {
    forall j | 0 <= j < i - 1 ensures !OccursAt(s[1..], pat, j) {
      assert !OccursAt(s, pat, j + 1);
      assert s[1..][j..j + |pat|] == s[j + 1..j + 1 + |pat|];
    }
    assert s[1..][i - 1..i - 1 + |pat|] == s[i..i + |pat|];
  }

  /** With no occurrence at 0 but one further on, the pass keeps the first character. */
  lemma RemoveAllSkip(s: string, pat: string, i: nat)
    requires pat != [] && 0 < i && OccursAt(s, pat, i) && !OccursAt(s, pat, 0)
    ensures RemoveAll(s, pat) == [s[0]] + RemoveAll(s[1..], pat)
  {
    assert |pat| <= |s| && s[..|pat|] != pat;
  }

  /** How many occurrences the pass deletes. */
  function RemovedCount(s: string, pat: string): nat
    requires pat != []
    decreases |s|
  {
    if |s| < |pat| then 0
    else if s[..|pat|] == pat then 1 + RemovedCount(s[|pat|..], pat)
    else RemovedCount(s[1..], pat)
  }

  /** What the pass deletes is whole copies of the pattern: the lengths differ by a multiple of |pat|. */
  lemma {:induction false} RemoveAllLength(s: string, pat: string)
    requires pat != []
    ensures |s| == |RemoveAll(s, pat)| + RemovedCount(s, pat) * |pat|
    ensures (|s| - |RemoveAll(s, pat)|) % |pat| == 0
    decreases |s|
  {
    if |s| >= |pat| {
      if s[..|pat|] == pat {
        RemoveAllLength(s[|pat|..], pat);
        var c, p := RemovedCount(s[|pat|..], pat), |pat|;
        assert RemovedCount(s, pat) == c + 1;
        MulSucc(c, p);
      } else {
        RemoveAllLength(s[1..], pat);
      }
    }
    ModUnique(|s| - |RemoveAll(s, pat)|, |pat|, RemovedCount(s, pat), 0);
  }

  /** `n` divided by `p` leaves `r` whenever `n == q * p + r` with `0 <= r < p`. */
  lemma ModUnique(n: int, p: int, q: int, r: int)
    requires p > 0 && 0 <= r < p && n == q * p + r
    ensures n % p == r
  {
    var q', r' := n / p, n % p;
    assert n == q' * p + r' && 0 <= r' < p;
    MulAtLeast(q - q', p);
    MulAtLeast(q' - q, p);
    assert (q - q') * p == q * p - q' * p;
  }

  lemma MulSucc(c: int, p: int)
    ensures (c + 1) * p == c * p + p
  {
  }

  lemma {:induction false} MulAtLeast(k: int, p: nat)
    ensures k >= 1 ==> k * p >= p
    decreases k
  {
    if k > 1 {
      MulAtLeast(k - 1, p);
      assert k * p == (k - 1) * p + p;
    }
  }

  /** Joining the pieces with the separator gives `s` back. */
  lemma {:induction false} SplitJoin(s: string, sep: char)
    ensures Join(Split(s, sep), sep) == s
    decreases |s|
  {
    if sep in s {
      var i := IndexOf(s, sep);
      var rest := Split(s[i + 1..], sep);
      SplitJoin(s[i + 1..], sep);
      assert ([s[..i]] + rest)[1..] == rest;
      assert s == s[..i] + [sep] + s[i + 1..];
    }
  }

  /** strings.TrimLeft with a one-character cut set. */
  function TrimLeft(s: string, c: char): string
  {
    if |s| > 0 && s[0] == c then TrimLeft(s[1..], c) else s
  }

  /** What TrimLeft cuts is a run of `c`, and what it keeps does not start with `c`. */
  lemma {:induction false} TrimLeftSpec(s: string, c: char)
    ensures var r := TrimLeft(s, c);
      && |r| <= |s| && r == s[|s| - |r|..]
      && (forall k :: 0 <= k < |s| - |r| ==> s[k] == c)
      && (r == [] || r[0] != c)
  {
    if |s| > 0 && s[0] == c {
      TrimLeftSpec(s[1..], c);
    }
  }

  /** strings.TrimRight with a one-character cut set. */
  function TrimRight(s: string, c: char): string
  {
    if |s| > 0 && s[|s| - 1] == c then TrimRight(s[..|s| - 1], c) else s
  }

  /** What TrimRight cuts is a run of `c`, and what it keeps does not end with `c`. */
  lemma {:induction false} TrimRightSpec(s: string, c: char)
    ensures var r := TrimRight(s, c);
      && |r| <= |s| && r == s[..|r|]
      && (forall k :: |r| <= k < |s| ==> s[k] == c)
      && (r == [] || r[|r| - 1] != c)
  {
    if |s| > 0 && s[|s| - 1] == c {
      TrimRightSpec(s[..|s| - 1], c);
    }
  }

  /** strings.Trim with a one-character cut set. */
  function Trim(s: string, c: char): string
  {
    TrimRight(TrimLeft(s, c), c)
  }

  /**
   Trim keeps a slice of `s` that neither starts nor ends with `c`, and
   everything cut off is `c`.
   */
  lemma TrimSpec(s: string, c: char)
    ensures var r := Trim(s, c);
      && (exists i :: 0 <= i <= |s| - |r| && r <= s[i..]
                      && (forall k :: 0 <= k < i ==> s[k] == c)
                      && (forall k :: i + |r| <= k < |s| ==> s[k] == c))
      && (r == [] || (r[0] != c && r[|r| - 1] != c))
  {
    var l := TrimLeft(s, c);
    var r := TrimRight(l, c);
    TrimLeftSpec(s, c);
    TrimRightSpec(l, c);
    var i := |s| - |l|;
    assert r <= s[i..];
  }

  /** unicode.ToUpper restricted to ASCII letters. */
  function UpperChar(c: char): char
  {
    if 'a' <= c <= 'z' then (c as int - 'a' as int + 'A' as int) as char else c
  }

  /** strings.ToUpper, ASCII letters only. */
  function ToUpper(s: string): string
  {
    if s == [] then [] else [UpperChar(s[0])] + ToUpper(s[1..])
  }

  /** ToUpper maps each character on its own and leaves no lower-case ASCII letter. */
  lemma {:induction false} ToUpperSpec(s: string)
    ensures |ToUpper(s)| == |s|
    ensures forall k :: 0 <= k < |s| ==> ToUpper(s)[k] == UpperChar(s[k])
    ensures forall k :: 0 <= k < |s| ==> !('a' <= ToUpper(s)[k] <= 'z')
  {
    if s != [] {
      ToUpperSpec(s[1..]);
    }
  }
}
