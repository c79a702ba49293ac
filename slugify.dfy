/**
 * `slugify` of the seeding script: lower-case, decompose (NFD), drop the
 * combining marks, turn whitespace runs into '-', drop everything but word
 * characters and '-', collapse '-' runs, and trim '-' from both ends.
 * Unicode decomposition is the parameter `nfd`.
 */
module Slugify {
  import opened Seqs
  import opened Text

  /** JavaScript's `\s`. */
  predicate IsSpace(c: char) {
    c == ' ' || c == '\t' || c == '\n' || c == '\r' || c == '\U{000B}' || c == '\U{000C}' ||
    c == '\U{00A0}' || c == '\U{1680}' || ('\U{2000}' <= c <= '\U{200A}') ||
    c == '\U{2028}' || c == '\U{2029}' || c == '\U{202F}' || c == '\U{205F}' ||
    c == '\U{3000}' || c == '\U{FEFF}'
  }

  /** The Combining Diacritical Marks block, U+0300 to U+036F. */
  predicate IsMark(c: char) { '\U{0300}' <= c <= '\U{036F}' }

  /** JavaScript's `\w`: ASCII letters, digits and '_'. */
  predicate IsWord(c: char) { 'a' <= c <= 'z' || 'A' <= c <= 'Z' || '0' <= c <= '9' || c == '_' }

  predicate WordOrDash(c: char) { IsWord(c) || c == '-' }

  /** No two adjacent '-'. */
  predicate NoDoubleDash(s: string) {
    forall i :: 0 <= i < |s| - 1 ==> !(s[i] == '-' && s[i + 1] == '-')
  }

  /** What `slugify` can return: word characters and single '-' between
      them, with no '-' at either end. */
  predicate IsSlug(s: string) {
    (forall i :: 0 <= i < |s| ==> WordOrDash(s[i])) &&
    NoDoubleDash(s) &&
    (s != [] ==> s[0] != '-' && s[|s| - 1] != '-')
  }

  /** `.replace(/[̀-ͯ]/g, '')`. */
  function StripMarks(s: string): string {
    Filter(s, Unmarked)
  }

  predicate Unmarked(c: char) { !IsMark(c) }

  /** Text without combining marks loses nothing to their removal. */
  lemma StripNothing(s: string)
    requires forall i :: 0 <= i < |s| ==> !IsMark(s[i])
    ensures StripMarks(s) == s
  {
    FilterAll(s, Unmarked);
  }

  /** The suffix of `s` after its leading whitespace. */
  function DropSpaces(s: string): (r: string)
    ensures |r| <= |s| && r == s[|s| - |r|..]
    ensures r == [] || !IsSpace(r[0])
  {
    if s != [] && IsSpace(s[0]) then DropSpaces(s[1..]) else s
  }

  /** `.replace(/\s+/g, '-')`: each maximal whitespace run becomes one '-'. */
  function DashSpaces(s: string): string
    decreases |s|
  {
    if s == [] then []
    else if IsSpace(s[0]) then ['-'] + DashSpaces(DropSpaces(s[1..]))
    else [s[0]] + DashSpaces(s[1..])
  }

  /** `.replace(/[^\w\-]+/g, '')`. */
  function KeepWordDash(s: string): (r: string)
    ensures forall i :: 0 <= i < |r| ==> WordOrDash(r[i])
  {
    Filter(s, WordOrDash)
  }

  /** `.replace(/^-+/, '')`: the suffix after the leading '-' run. */
  function DropDashes(s: string): (r: string)
    ensures |r| <= |s| && r == s[|s| - |r|..]
    ensures r == [] || r[0] != '-'
  {
    if s != [] && s[0] == '-' then DropDashes(s[1..]) else s
  }

  /** `.replace(/\-\-+/g, '-')`: each run of '-' becomes one '-'. */
  function CollapseDashes(s: string): (r: string)
    ensures forall c :: c in r ==> c in s
    ensures NoDoubleDash(r)
    ensures s != [] && s[0] != '-' ==> r != [] && r[0] == s[0]
    decreases |s|
  {
    if s == [] then []
    else if s[0] == '-' then
      var rest := CollapseDashes(DropDashes(s[1..]));
      assert rest != [] ==> rest[0] != '-';
      ['-'] + rest
    else
      var rest := CollapseDashes(s[1..]);
      [s[0]] + rest
  }

  /** `.replace(/-+$/, '')`: the prefix before the trailing '-' run. */
  function TrimEnd(s: string): (r: string)
    ensures |r| <= |s| && r == s[..|r|]
    ensures r == [] || r[|r| - 1] != '-'
  {
    if s != [] && s[|s| - 1] == '-' then TrimEnd(s[..|s| - 1]) else s
  }

  /** The steps after whitespace handling. */
  function Tidy(s: string): string {
    TrimEnd(DropDashes(CollapseDashes(KeepWordDash(s))))
  }

  /** The steps after decomposition. */
  function Clean(s: string): string {
    Tidy(DashSpaces(StripMarks(s)))
  }

  /** `slugify(text)`. */
  function Slug(text: string, nfd: string -> string): string {
    Clean(nfd(Lower(text)))
  }

  predicate AllWordOrDash(s: string) {
    forall i :: 0 <= i < |s| ==> WordOrDash(s[i])
  }

  predicate AllWord(s: string) {
    forall i :: 0 <= i < |s| ==> IsWord(s[i])
  }

  predicate AllSpace(s: string) {
    forall i :: 0 <= i < |s| ==> IsSpace(s[i])
  }

  predicate NoSpace(s: string) {
    forall i :: 0 <= i < |s| ==> !IsSpace(s[i])
  }

  lemma WordNotSpace(c: char)
    requires WordOrDash(c)
    ensures !IsSpace(c) && !IsMark(c)
  {
  }

  /** Word characters and '-' are neither whitespace nor combining marks. */
  lemma WordsHaveNoSpace(s: string)
    requires AllWordOrDash(s)
    ensures NoSpace(s)
    ensures forall i :: 0 <= i < |s| ==> !IsMark(s[i])
  {
    forall i | 0 <= i < |s| ensures !IsSpace(s[i]) && !IsMark(s[i]) {
      WordNotSpace(s[i]);
    }
  }

  lemma SuffixKeeps(s: string, k: int)
    requires 0 <= k <= |s|
    ensures AllWordOrDash(s) ==> AllWordOrDash(s[k..])
    ensures NoDoubleDash(s) ==> NoDoubleDash(s[k..])
  {
    assert forall i :: 0 <= i < |s| - k ==> s[k..][i] == s[k + i];
  }

  lemma PrefixKeeps(s: string, k: int)
    requires 0 <= k <= |s|
    ensures AllWordOrDash(s) ==> AllWordOrDash(s[..k])
    ensures NoDoubleDash(s) ==> NoDoubleDash(s[..k])
  {
  }

  /** Collapsing adds no character. */
  lemma CollapseKeeps(s: string)
    requires AllWordOrDash(s)
    ensures AllWordOrDash(CollapseDashes(s))
  {
    var c := CollapseDashes(s);
    forall i | 0 <= i < |c| ensures WordOrDash(c[i]) {
      assert c[i] in s;
    }
  }

  /** Whatever the steps are given, their result is a slug. */
  lemma TidyIsSlug(s: string)
    ensures IsSlug(Tidy(s))
  {
    var k := KeepWordDash(s);
    assert AllWordOrDash(k);
    var c := CollapseDashes(k);
    CollapseKeeps(k);
    var d := DropDashes(c);
    SuffixKeeps(c, |c| - |d|);
    var t := TrimEnd(d);
    PrefixKeeps(d, |t|);
    TrimmedIsSlug(d, t);
  }

  lemma TrimmedIsSlug(d: string, t: string)
    requires AllWordOrDash(d) && NoDoubleDash(d) && (d == [] || d[0] != '-')
    requires t == TrimEnd(d)
    requires AllWordOrDash(t) && NoDoubleDash(t)
    ensures IsSlug(t)
  {
    if t != [] {
      assert t[0] == d[0];
    }
  }

  /** `slugify` returns only word characters and '-', no whitespace, no
      "--", and no '-' at either end. */
  lemma SlugIsSlug(text: string, nfd: string -> string)
    ensures IsSlug(Slug(text, nfd))
    ensures forall i :: 0 <= i < |Slug(text, nfd)| ==> !IsSpace(Slug(text, nfd)[i])
  {
    var y := Slug(text, nfd);
    TidyIsSlug(DashSpaces(StripMarks(nfd(Lower(text)))));
    WordsHaveNoSpace(y);
  }

  /** Characters without a decomposition outside `\w` and '-', such as 'đ',
      are dropped, not transliterated. */
  lemma DroppedLetter(text: string, nfd: string -> string)
    ensures 'đ' !in Slug(text, nfd) && 'Đ' !in Slug(text, nfd)
  {
    SlugIsSlug(text, nfd);
    NoDStroke(Slug(text, nfd));
  }

  lemma NoDStroke(s: string)
    requires AllWordOrDash(s)
    ensures 'đ' !in s && 'Đ' !in s
  {
    assert forall c :: c in s ==> WordOrDash(c);
  }

  /** "Đọc": its NFD form keeps 'đ' and splits 'ọ' into 'o' and a
      combining dot, so the slug is "oc". */
  lemma DroppedLetterExample(nfd: string -> string)
    requires nfd("đọc") == "đo\U{0323}c"
    ensures Slug("Đọc", nfd) == "oc"
  {
    calc {
      Slug("Đọc", nfd);
      { LowerExample(); }
      Clean("đo\U{0323}c");
      { StripExample(); }
      Tidy(DashSpaces("đoc"));
      { DashExample(); }
      Tidy("đoc");
      { KeepExample(); CollapseExample(); }
      TrimEnd(DropDashes("oc"));
      "oc";
    }
  }

  lemma LowerExample()
    ensures Lower("Đọc") == "đọc"
  {
  }

  lemma StripExample()
    ensures StripMarks("đo\U{0323}c") == "đoc"
  {
    var d := "đo\U{0323}c";
    assert StripMarks(d[3..]) == "c";
    assert StripMarks(d[2..]) == "c";
    assert StripMarks(d[1..]) == "oc";
  }

  lemma DashExample()
    ensures DashSpaces("đoc") == "đoc"
  {
    DashSpacesNoSpaces("đoc");
  }

  lemma KeepExample()
    ensures KeepWordDash("đoc") == "oc"
  {
    var e := "đoc";
    assert KeepWordDash(e[2..]) == "c";
    assert KeepWordDash(e[1..]) == "oc" by {
      assert WordOrDash(e[1]);
      assert Filter(e[1..], WordOrDash) == [e[1]] + Filter(e[2..], WordOrDash);
    }
    assert !WordOrDash(e[0]);
    assert Filter(e, WordOrDash) == Filter(e[1..], WordOrDash);
  }

  lemma CollapseExample()
    ensures CollapseDashes("oc") == "oc"
  {
    CollapseNoDouble("oc");
  }

  lemma {:induction false} DashSpacesNoSpaces(s: string)
    requires NoSpace(s)
    ensures DashSpaces(s) == s
  {
    if s != [] {
      assert !IsSpace(s[0]);
      assert NoSpace(s[1..]) by {
        assert forall i :: 0 <= i < |s| - 1 ==> s[1..][i] == s[i + 1];
      }
      DashSpacesNoSpaces(s[1..]);
    }
  }

  lemma {:induction false} DashSpacesPrefix(a: string, rest: string)
    requires NoSpace(a)
    ensures DashSpaces(a + rest) == a + DashSpaces(rest)
  {
    if a != [] {
      var x := a + rest;
      assert x[0] == a[0] && !IsSpace(x[0]);
      assert x[1..] == a[1..] + rest;
      assert DashSpaces(x) == [x[0]] + DashSpaces(x[1..]);
      assert NoSpace(a[1..]) by {
        assert forall i :: 0 <= i < |a| - 1 ==> a[1..][i] == a[i + 1];
      }
      DashSpacesPrefix(a[1..], rest);
      assert [a[0]] + (a[1..] + DashSpaces(rest)) == a + DashSpaces(rest);
    } else {
      assert a + rest == rest;
    }
  }

  lemma {:induction false} DropSpacesThen(w: string, b: string)
    requires AllSpace(w)
    requires b != [] && !IsSpace(b[0])
    ensures DropSpaces(w + b) == b
  {
    if w != [] {
      var x := w + b;
      assert x[0] == w[0] && IsSpace(x[0]);
      assert x[1..] == w[1..] + b;
      assert AllSpace(w[1..]) by {
        assert forall i :: 0 <= i < |w| - 1 ==> w[1..][i] == w[i + 1];
      }
      DropSpacesThen(w[1..], b);
    } else {
      assert w + b == b;
    }
  }

  lemma {:induction false} CollapseNoDouble(s: string)
    requires NoDoubleDash(s)
    ensures CollapseDashes(s) == s
  {
    if s != [] {
      CollapseNoDouble(s[1..]);
      if s[0] == '-' && |s| > 1 {
        assert s[1] != '-';
      }
    }
  }

  /** A slug passes the later steps unchanged. */
  lemma TidyFixesSlug(s: string)
    requires IsSlug(s)
    ensures Tidy(s) == s
  {
    FilterAll(s, WordOrDash);
    CollapseNoDouble(s);
  }

  /** A whitespace run between two words becomes a single '-'. */
  lemma SpacesBecomeOneDash(a: string, w: string, b: string)
    requires a != [] && b != [] && w != []
    requires AllWord(a) && AllWord(b) && AllSpace(w)
    ensures Clean(a + w + b) == a + "-" + b
  {
    var s := a + w + b;
    calc {
      Clean(s);
      { NoMarks(a, w, b); StripNothing(s); }
      Tidy(DashSpaces(s));
      { DashAcross(a, w, b); }
      Tidy(a + "-" + b);
      { JoinIsSlug(a, b); TidyFixesSlug(a + "-" + b); }
      a + "-" + b;
    }
  }

  lemma NoMarks(a: string, w: string, b: string)
    requires AllWord(a) && AllWord(b) && AllSpace(w)
    ensures forall i :: 0 <= i < |a + w + b| ==> !IsMark((a + w + b)[i])
  {
    var s := a + w + b;
    forall i | 0 <= i < |s| ensures !IsMark(s[i]) {
      if i < |a| {
        assert s[i] == a[i] && IsWord(a[i]);
      } else if i < |a| + |w| {
        assert s[i] == w[i - |a|] && IsSpace(w[i - |a|]);
      } else {
        assert s[i] == b[i - |a| - |w|] && IsWord(b[i - |a| - |w|]);
      }
    }
  }

  lemma DashAcross(a: string, w: string, b: string)
    requires a != [] && b != [] && w != []
    requires AllWord(a) && AllWord(b) && AllSpace(w)
    ensures DashSpaces(a + w + b) == a + "-" + b
  {
    AllWordNoSpace(a);
    calc {
      DashSpaces(a + w + b);
      { assert a + w + b == a + (w + b); }
      DashSpaces(a + (w + b));
      { DashSpacesPrefix(a, w + b); }
      a + DashSpaces(w + b);
      { DashRun(w, b); }
      a + ("-" + b);
    }
    assert a + ("-" + b) == a + "-" + b;
  }

  lemma AllWordNoSpace(s: string)
    requires AllWord(s)
    ensures NoSpace(s)
  {
    forall i | 0 <= i < |s| ensures !IsSpace(s[i]) {
      WordNotSpace(s[i]);
    }
  }

  /** A whitespace run followed by a word becomes '-' and the word. */
  lemma DashRun(w: string, b: string)
    requires b != [] && w != []
    requires AllWord(b) && AllSpace(w)
    ensures DashSpaces(w + b) == "-" + b
  {
    var x := w + b;
    assert x[0] == w[0] && IsSpace(x[0]);
    assert x[1..] == w[1..] + b;
    assert AllSpace(w[1..]) by {
      assert forall i :: 0 <= i < |w| - 1 ==> w[1..][i] == w[i + 1];
    }
    AllWordNoSpace(b);
    assert !IsSpace(b[0]);
    DropSpacesThen(w[1..], b);
    DashSpacesNoSpaces(b);
  }

  /** Two words joined by one '-' make a slug. */
  lemma JoinIsSlug(a: string, b: string)
    requires a != [] && b != []
    requires AllWord(a) && AllWord(b)
    ensures IsSlug(a + "-" + b)
  {
    var r := a + "-" + b;
    assert forall i :: 0 <= i < |a| ==> r[i] == a[i];
    assert forall i :: |a| < i < |r| ==> r[i] == b[i - |a| - 1];
  }

  /** `toLowerCase` leaves a slug alone when it has no ASCII capitals. */
  lemma {:induction false} LowerFixesSlug(s: string)
    requires forall i :: 0 <= i < |s| ==> WordOrDash(s[i]) && !IsUpperAscii(s[i])
    ensures Lower(s) == s
  {
    if s != [] {
      LowerFixesSlug(s[1..]);
    }
  }

  /** Slugifying a slug changes nothing, given that decomposition leaves
      ASCII text alone and that the slug has no ASCII capitals (which
      `toLowerCase` before decomposition ensures). */
  lemma SlugIdempotent(text: string, nfd: string -> string)
    requires forall s :: (forall i :: 0 <= i < |s| ==> s[i] < '\U{0080}') ==> nfd(s) == s
    requires forall i :: 0 <= i < |Slug(text, nfd)| ==> !IsUpperAscii(Slug(text, nfd)[i])
    ensures Slug(Slug(text, nfd), nfd) == Slug(text, nfd)
  {
    var y := Slug(text, nfd);
    SlugIsSlug(text, nfd);
    SlugIsAscii(y);
    SlugFixed(y, nfd);
  }

  lemma SlugIsAscii(y: string)
    requires AllWordOrDash(y)
    ensures forall i :: 0 <= i < |y| ==> y[i] < '\U{0080}'
  {
  }

  /** A slug without ASCII capitals that decomposition leaves alone is its
      own slug. */
  lemma SlugFixed(y: string, nfd: string -> string)
    requires IsSlug(y) && nfd(y) == y
    requires forall i :: 0 <= i < |y| ==> !IsUpperAscii(y[i])
    ensures Slug(y, nfd) == y
  {
    WordsHaveNoSpace(y);
    calc {
      Slug(y, nfd);
      { LowerFixesSlug(y); }
      Clean(y);
      { StripNothing(y); DashSpacesNoSpaces(y); }
      Tidy(y);
      { TidyFixesSlug(y); }
      y;
    }
  }
}
