/** The string operations the core relies on: Go's `strings.Split(s, ",")`
    and `strings.TrimSpace`, PostgreSQL's `LOWER`, `LIKE '%x%'` and
    `ORDER BY` on text. */
module Text {

  /** Go's `unicode.IsSpace`: the white space that `strings.TrimSpace` removes. */
  predicate IsSpace(c: char) {
    c == ' ' || c == '\t' || c == '\n' || c == '\r' || c == '\U{0B}' || c == '\U{0C}'
    || c == '\U{85}' || c == '\U{A0}' || c == '\U{1680}'
    || ('\U{2000}' <= c <= '\U{200A}')
    || c == '\U{2028}' || c == '\U{2029}' || c == '\U{202F}' || c == '\U{205F}' || c == '\U{3000}'
  }

  /** `s` without its leading white space. */
  function TrimLeft(s: string): (r: string)
    ensures |r| <= |s|
    ensures r != [] ==> !IsSpace(r[0])
  {
    if s != [] && IsSpace(s[0]) then TrimLeft(s[1..]) else s
  }

  /** `TrimLeft` keeps a suffix of `s` and drops only white space. */
  lemma {:induction false} TrimLeftSuffix(s: string)
    ensures TrimLeft(s) == s[|s| - |TrimLeft(s)|..]
    ensures forall k :: 0 <= k < |s| - |TrimLeft(s)| ==> IsSpace(s[k])
  {
    if s != [] && IsSpace(s[0]) {
      TrimLeftSuffix(s[1..]);
      forall k | 1 <= k < |s| - |TrimLeft(s)| ensures IsSpace(s[k]) {
        assert s[k] == s[1..][k - 1];
      }
    }
  }

  /** `s` without its trailing white space. */
  function TrimRight(s: string): (r: string)
    ensures |r| <= |s|
    ensures r != [] ==> !IsSpace(r[|r| - 1])
  {
    if s != [] && IsSpace(s[|s| - 1]) then TrimRight(s[..|s| - 1]) else s
  }

  /** `TrimRight` keeps a prefix of `s` and drops only white space. */
  lemma {:induction false} TrimRightPrefix(s: string)
    ensures TrimRight(s) == s[..|TrimRight(s)|]
    ensures forall k :: |TrimRight(s)| <= k < |s| ==> IsSpace(s[k])
  {
    if s != [] && IsSpace(s[|s| - 1]) {
      TrimRightPrefix(s[..|s| - 1]);
      assert s[..|s| - 1][..|TrimRight(s)|] == s[..|TrimRight(s)|];
      forall k | |TrimRight(s)| <= k < |s| - 1 ensures IsSpace(s[k]) {
        assert s[k] == s[..|s| - 1][k];
      }
    }
  }

  /** Go's `strings.TrimSpace`: the slice of `s` between its leading and
      trailing white space. */
  function TrimSpace(s: string): (r: string)
    ensures |r| <= |s|
    ensures r != [] ==> !IsSpace(r[0]) && !IsSpace(r[|r| - 1])
  {
    TrimRightPrefix(TrimLeft(s));
    TrimRight(TrimLeft(s))
  }

  /** What `TrimSpace` removes is white space at the two ends of `s`, and
      nothing else. */
  lemma TrimSpaceSlice(s: string)
    ensures var r, start := TrimSpace(s), |s| - |TrimLeft(s)|;
      && start + |r| <= |s|
      && r == s[start..start + |r|]
      && (forall k :: 0 <= k < start ==> IsSpace(s[k]))
      && (forall k :: start + |r| <= k < |s| ==> IsSpace(s[k]))
  {
    var t := TrimLeft(s);
    var r := TrimRight(t);
    TrimLeftSuffix(s);
    TrimRightPrefix(t);
    SliceOfTrimmed(s, t, r);
  }

  /** Trimming spaces off both ends of a piece of `s` leaves a slice of `s`. */
  lemma SliceOfTrimmed(s: string, t: string, r: string)
    requires |t| <= |s| && t == s[|s| - |t|..]
    requires |r| <= |t| && r == t[..|r|]
    requires forall k :: |r| <= k < |t| ==> IsSpace(t[k])
    ensures var start := |s| - |t|;
      && r == s[start..start + |r|]
      && forall k :: start + |r| <= k < |s| ==> IsSpace(s[k])
  {
    var start := |s| - |t|;
    forall k | 0 <= k < |r| ensures r[k] == s[start + k] {
      assert r[k] == t[k];
    }
    forall k | start + |r| <= k < |s| ensures IsSpace(s[k]) {
      assert s[k] == t[k - start];
    }
  }

  /** ASCII lower-casing of one character. */
  function LowerChar(c: char): char {
    if 'A' <= c <= 'Z' then (c as int - 'A' as int + 'a' as int) as char else c
  }

  /** `LOWER(s)`, restricted to ASCII letters. */
  function Lower(s: string): (r: string)
    ensures |r| == |s|
  {
    seq(|s|, k requires 0 <= k < |s| => LowerChar(s[k]))
  }

  /** `pat` occurs in `s` starting at position `i`. */
  predicate OccursAt(s: string, pat: string, i: int) {
    0 <= i && i + |pat| <= |s| && s[i..i + |pat|] == pat
  }

  /** `s LIKE '%' || pat || '%'` for a pattern without wildcards: substring
      containment, scanning `s` from the left. */
  predicate Contains(s: string, pat: string) {
    (|pat| <= |s| && s[..|pat|] == pat) || (s != [] && Contains(s[1..], pat))
  }

  lemma {:induction false} ContainsIff(s: string, pat: string)
    ensures Contains(s, pat) <==> exists i :: OccursAt(s, pat, i)
  {
    OccursAtStart(s, pat);
    if s != [] {
      ContainsIff(s[1..], pat);
      if exists i :: OccursAt(s[1..], pat, i) {
        var i :| OccursAt(s[1..], pat, i);
        OccursAtShift(s, pat, i);
      }
      if exists i :: OccursAt(s, pat, i) {
        var i :| OccursAt(s, pat, i);
        if i > 0 {
          OccursAtShift(s, pat, i - 1);
        }
      }
    }
  }

  /** An occurrence at position 0 is a prefix match. */
  lemma OccursAtStart(s: string, pat: string)
    ensures OccursAt(s, pat, 0) <==> |pat| <= |s| && s[..|pat|] == pat
  {
    if |pat| <= |s| {
      assert s[..|pat|] == s[0..0 + |pat|];
    }
  }

  /** An occurrence in `s[1..]` is an occurrence in `s` one place further on. */
  lemma OccursAtShift(s: string, pat: string, i: nat)
    requires s != []
    ensures OccursAt(s[1..], pat, i) <==> OccursAt(s, pat, i + 1)
  {
    if i + |pat| < |s| {
      ShiftedSlice(s, i, |pat|);
    }
  }

  /** A slice of `s[1..]` is the slice of `s` one place further on. */
  lemma ShiftedSlice(s: string, i: nat, n: nat)
    requires i + n < |s|
    ensures s[1..][i..i + n] == s[i + 1..i + 1 + n]
  {
    var shifted, direct := s[1..][i..i + n], s[i + 1..i + 1 + n];
    forall k | 0 <= k < n ensures shifted[k] == direct[k] {
      assert s[1..][i + k] == s[i + 1 + k];
    }
  }

  /** A single-character pattern is contained exactly when the character occurs. */
  lemma ContainsChar(s: string, c: char)
    ensures Contains(s, [c]) <==> c in s
  {
    ContainsIff(s, [c]);
    if c in s {
      var i :| 0 <= i < |s| && s[i] == c;
      assert OccursAt(s, [c], i);
    }
    if exists i :: OccursAt(s, [c], i) {
      var i :| OccursAt(s, [c], i);
      assert s[i] == s[i..i + 1][0];
    }
  }

  /** A pattern as long as the text is contained only when it is the text. */
  lemma ContainsSameLength(s: string, pat: string)
    requires |pat| == |s|
    ensures Contains(s, pat) <==> s == pat
  {
    ContainsIff(s, pat);
    if s == pat {
      assert OccursAt(s, pat, 0);
    }
  }

  /** Go's `strings.Split(s, ",")`: the pieces between commas, always at least one. */
  function Split(s: string): (parts: seq<string>)
    ensures parts != []
  {
    if s == [] then [""]
    else
      var rest := Split(s[1..]);
      if s[0] == ',' then [""] + rest
      else [[s[0]] + rest[0]] + rest[1..]
  }

  /** No piece holds a comma. */
  lemma {:induction false} SplitNoComma(s: string)
    ensures forall k :: 0 <= k < |Split(s)| ==> ',' !in Split(s)[k]
  {
    if s != [] {
      SplitNoComma(s[1..]);
      var rest := Split(s[1..]);
      if s[0] != ',' {
        assert ',' !in [s[0]] + rest[0];
      }
    }
  }

  /** There is one more piece than there are commas. */
  lemma {:induction false} SplitCount(s: string)
    ensures |Split(s)| == multiset(s)[','] + 1
  {
    if s != [] {
      SplitCount(s[1..]);
      assert s == [s[0]] + s[1..];
      assert multiset(s) == multiset{s[0]} + multiset(s[1..]);
    }
  }

  /** `strings.Join(parts, ",")`, the encoding of a list in one column. */
  function Join(parts: seq<string>): string {
    if parts == [] then ""
    else if |parts| == 1 then parts[0]
    else parts[0] + "," + Join(parts[1..])
  }

  lemma JoinCons(p: string, rest: seq<string>)
    requires rest != []
    ensures Join([p] + rest) == p + "," + Join(rest)
  {
    assert ([p] + rest)[1..] == rest;
  }

  /** Joining the pieces of a split gives back the original text. */
  lemma {:induction false} JoinSplit(s: string)
    ensures Join(Split(s)) == s
  {
    if s != [] {
      var rest := Split(s[1..]);
      JoinSplit(s[1..]);
      assert s == [s[0]] + s[1..];
      if s[0] == ',' {
        assert Split(s) == [""] + rest;
        JoinCons("", rest);
      } else {
        var head := [s[0]] + rest[0];
        assert Split(s) == [head] + rest[1..];
        if |rest| == 1 {
          assert Join(rest) == rest[0];
        } else {
          assert rest == [rest[0]] + rest[1..];
          JoinCons(rest[0], rest[1..]);
          JoinCons(head, rest[1..]);
        }
      }
    }
  }

  lemma {:induction false} SplitWithoutComma(p: string)
    requires ',' !in p
    ensures Split(p) == [p]
  {
    if p != [] {
      SplitWithoutComma(p[1..]);
      assert p == [p[0]] + p[1..];
    }
  }

  lemma {:induction false} SplitAfterPiece(p: string, t: string)
    requires ',' !in p
    ensures Split(p + "," + t) == [p] + Split(t)
  {
    var s := p + "," + t;
    if p == [] {
      assert s[0] == ',' && s[1..] == t;
    } else {
      SplitAfterPiece(p[1..], t);
      assert s[0] == p[0] && s[1..] == p[1..] + "," + t;
      var rest := Split(s[1..]);
      assert rest == [p[1..]] + Split(t);
      assert Split(s) == [[p[0]] + p[1..]] + Split(t);
      assert [p[0]] + p[1..] == p;
    }
  }

  /** Splitting recovers any list of comma-free pieces joined with commas. */
  lemma {:induction false} SplitJoin(parts: seq<string>)
    requires parts != []
    requires forall k :: 0 <= k < |parts| ==> ',' !in parts[k]
    ensures Split(Join(parts)) == parts
  {
    if |parts| == 1 {
      SplitWithoutComma(parts[0]);
    } else {
      SplitJoin(parts[1..]);
      SplitAfterPiece(parts[0], Join(parts[1..]));
      assert [parts[0]] + parts[1..] == parts;
    }
  }

  /** Byte-wise text order (`ORDER BY` under the C collation). */
  predicate TextLeq(a: string, b: string) {
    if a == [] then true
    else if b == [] then false
    else if a[0] != b[0] then a[0] < b[0]
    else TextLeq(a[1..], b[1..])
  }

  lemma {:induction false} TextLeqTotal(a: string, b: string)
    ensures TextLeq(a, b) || TextLeq(b, a)
  {
    if a != [] && b != [] && a[0] == b[0] {
      TextLeqTotal(a[1..], b[1..]);
    }
  }

  lemma {:induction false} TextLeqTransitive(a: string, b: string, c: string)
    requires TextLeq(a, b) && TextLeq(b, c)
    ensures TextLeq(a, c)
  {
    if a != [] && b != [] && c != [] && a[0] == b[0] && b[0] == c[0] {
      TextLeqTransitive(a[1..], b[1..], c[1..]);
    }
  }
}
