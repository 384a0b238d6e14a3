/**
 * The form-encoded `options` field of a quiz creation request: one string,
 * split on commas, each piece trimmed of surrounding whitespace
 * (`[option.strip() for option in s.split(',')]`).
 */
module FormOptions {

  /** The characters Python's `str.isspace()` accepts, which `str.strip()` removes. */
  predicate IsSpace(c: char) {
    || c == ' '
    || ('\t' <= c <= '\r')               // \t \n \v \f \r
    || ('\U{1C}' <= c <= '\U{1F}')       // file, group, record and unit separators
    || c == '\U{85}' || c == '\U{A0}' || c == '\U{1680}'
    || ('\U{2000}' <= c <= '\U{200A}')
    || c == '\U{2028}' || c == '\U{2029}' || c == '\U{202F}' || c == '\U{205F}' || c == '\U{3000}'
  }

  /** Neither the first nor the last character is whitespace. */
  predicate NoEdgeSpace(s: string) {
    s == [] || (!IsSpace(s[0]) && !IsSpace(s[|s| - 1]))
  }

  /**
   * `r` is `s` with only whitespace removed: `r` occurs in `s` at offset `a`,
   * and everything of `s` before it and after it is whitespace.
   */
  predicate TrimmedAt(r: string, s: string, a: nat) {
    && a + |r| <= |s|
    && r == s[a..a + |r|]
    && (forall k :: 0 <= k < a ==> IsSpace(s[k]))
    && (forall k :: a + |r| <= k < |s| ==> IsSpace(s[k]))
  }

  /** `str.lstrip()`: drop the longest all-whitespace prefix. */
  function StripLeft(s: string): (r: string)
    ensures |r| <= |s|
    ensures TrimmedAt(r, s, |s| - |r|)
    ensures r == [] || !IsSpace(r[0])
  {
    if s != [] && IsSpace(s[0]) then StripLeft(s[1..]) else s
  }

  /** `str.rstrip()`: drop the longest all-whitespace suffix. */
  function StripRight(s: string): (r: string)
    ensures TrimmedAt(r, s, 0)
    ensures r == [] || !IsSpace(r[|r| - 1])
  {
    if s != [] && IsSpace(s[|s| - 1]) then StripRight(s[..|s| - 1]) else s
  }

  /** Where the text of `s` starts: the length of its whitespace prefix. */
  function StripOffset(s: string): nat {
    |s| - |StripLeft(s)|
  }

  /** Stripping the right end of what `lstrip` left trims both ends of the original. */
  lemma TrimmedTwice(s: string, t: string, r: string)
    requires |t| <= |s| && TrimmedAt(t, s, |s| - |t|) && (t == [] || !IsSpace(t[0]))
    requires TrimmedAt(r, t, 0) && (r == [] || !IsSpace(r[|r| - 1]))
    ensures NoEdgeSpace(r) && TrimmedAt(r, s, |s| - |t|)
  {
    var a := |s| - |t|;
    assert t == s[a..];
    assert r == t[..|r|];
    assert forall k :: a + |r| <= k < |s| ==> s[k] == t[k - a];
    assert r != [] ==> r[0] == t[0];
  }

  /** `str.strip()`. */
  function Strip(s: string): (r: string)
    ensures NoEdgeSpace(r)
    ensures TrimmedAt(r, s, StripOffset(s))
  {
    var t := StripLeft(s);
    var r := StripRight(t);
    TrimmedTwice(s, t, r);
    r
  }

  /**
   * Strip's contract determines its result: at most one string is `s` trimmed
   * at both ends, so Strip removes exactly the maximal whitespace prefix and suffix.
   */
  lemma TrimmedUnique(s: string, r1: string, a1: nat, r2: string, a2: nat)
    requires TrimmedAt(r1, s, a1) && NoEdgeSpace(r1)
    requires TrimmedAt(r2, s, a2) && NoEdgeSpace(r2)
    ensures r1 == r2
  {
    var e1, e2 := a1 + |r1|, a2 + |r2|;
    assert r1 != [] ==> !IsSpace(s[a1]) && !IsSpace(s[e1 - 1]);
    assert r2 != [] ==> !IsSpace(s[a2]) && !IsSpace(s[e2 - 1]);
    assert r1 != [] <==> r2 != [];
    assert r1 != [] ==> a1 == a2 && e1 == e2;
  }

  /**
   * Each option is the piece at the same position between commas, with only
   * its surrounding whitespace removed: the options keep the field's order.
   */
  lemma ParseOptionsPieces(field: string, i: nat)
    requires i < |ParseOptions(field)|
    ensures var piece := Split(field, ',')[i];
            TrimmedAt(ParseOptions(field)[i], piece, StripOffset(piece))
  {
  }

  /** Stripping an already trimmed string changes nothing. */
  lemma StripOfTrimmed(s: string)
    requires NoEdgeSpace(s)
    ensures Strip(s) == s
  {
    assert StripLeft(s) == s;
    assert StripRight(s) == s;
  }

  /** Number of occurrences of `c` in `s` (`s.count(c)`). */
  function Count(s: string, c: char): nat {
    if s == [] then 0 else (if s[0] == c then 1 else 0) + Count(s[1..], c)
  }

  /** `sep.join(parts)`. */
  function Join(parts: seq<string>, sep: char): (s: string)
    requires |parts| >= 1
  {
    if |parts| == 1 then parts[0] else parts[0] + [sep] + Join(parts[1..], sep)
  }

  /** `s.split(sep)` for a one-character separator: the pieces between separators, empty ones included. */
  function Split(s: string, sep: char): (r: seq<string>)
    ensures |r| == Count(s, sep) + 1
    ensures forall i :: 0 <= i < |r| ==> sep !in r[i]
    ensures Join(r, sep) == s
  {
    if s == [] then [[]]
    else
      var rest := Split(s[1..], sep);
      if s[0] == sep then
        assert ([[]] + rest)[1..] == rest;
        [[]] + rest
      else
        var r := [[s[0]] + rest[0]] + rest[1..];
        assert r[1..] == rest[1..];
        assert |rest| > 1 ==> rest == [rest[0]] + rest[1..];
        r
  }

  /** The options list of a form-encoded request. */
  function ParseOptions(field: string): (r: seq<string>)
    ensures |r| == Count(field, ',') + 1
    ensures forall i :: 0 <= i < |r| ==> ',' !in r[i] && NoEdgeSpace(r[i])
  {
    var pieces := Split(field, ',');
    seq(|pieces|, i requires 0 <= i < |pieces| => Strip(pieces[i]))
  }

  /** A separator-free piece followed by a separator splits off as one piece. */
  lemma {:induction false} SplitCons(x: string, y: string, sep: char)
    requires sep !in x
    ensures Split(x + [sep] + y, sep) == [x] + Split(y, sep)
  {
    if x == [] {
      assert x + [sep] + y == [sep] + y;
      assert ([sep] + y)[1..] == y;
    } else {
      var s := x + [sep] + y;
      assert s[0] == x[0] && s[0] != sep;
      assert s[1..] == x[1..] + [sep] + y;
      SplitCons(x[1..], y, sep);
      var rest := Split(s[1..], sep);
      assert rest == [x[1..]] + Split(y, sep);
      assert rest[0] == x[1..] && rest[1..] == Split(y, sep);
      assert [x[0]] + x[1..] == x;
      assert Split(s, sep) == [[x[0]] + rest[0]] + rest[1..];
    }
  }

  /** A separator-free string is one piece. */
  lemma {:induction false} SplitSingle(x: string, sep: char)
    requires sep !in x
    ensures Split(x, sep) == [x]
  {
    if x != [] {
      SplitSingle(x[1..], sep);
      assert [x[0]] + x[1..] == x;
    }
  }

  /** Splitting undoes joining separator-free pieces; with Split's own `Join(Split(s)) == s` the two are inverse. */
  lemma {:induction false} SplitJoin(parts: seq<string>, sep: char)
    requires |parts| >= 1
    requires forall i :: 0 <= i < |parts| ==> sep !in parts[i]
    ensures Split(Join(parts, sep), sep) == parts
  {
    if |parts| == 1 {
      SplitSingle(parts[0], sep);
    } else {
      SplitJoin(parts[1..], sep);
      SplitCons(parts[0], Join(parts[1..], sep), sep);
      assert [parts[0]] + parts[1..] == parts;
    }
  }

  /**
   * Parsing comma-free pieces joined by commas strips each piece, keeping
   * the pieces' number and order.
   */
  lemma ParseOptionsOfPieces(pieces: seq<string>)
    requires |pieces| >= 1
    requires forall i :: 0 <= i < |pieces| ==> ',' !in pieces[i]
    ensures |ParseOptions(Join(pieces, ','))| == |pieces|
    ensures forall i :: 0 <= i < |pieces| ==> ParseOptions(Join(pieces, ','))[i] == Strip(pieces[i])
  {
    SplitJoin(pieces, ',');
  }

  /**
   * Entering clean options joined by commas yields exactly those options, in
   * their order: the form encoding round-trips.
   */
  lemma ParseOptionsOfJoin(opts: seq<string>)
    requires |opts| >= 1
    requires forall i :: 0 <= i < |opts| ==> ',' !in opts[i] && NoEdgeSpace(opts[i])
    ensures ParseOptions(Join(opts, ',')) == opts
  {
    ParseOptionsOfPieces(opts);
    var r := ParseOptions(Join(opts, ','));
    forall i | 0 <= i < |opts| ensures r[i] == opts[i] {
      StripOfTrimmed(opts[i]);
    }
  }
}
