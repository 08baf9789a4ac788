/** The name of the exported PDF (App.tsx:134):
    `curriculo-${fullName.replace(/\s+/g, '-').toLowerCase()}.pdf`. */
module PdfFileName {

  /** ECMAScript `\s`: the WhiteSpace and LineTerminator code points. */
  predicate IsWhitespace(c: char) {
    || '\t' <= c <= '\r'
    || c == ' ' || c == '\U{A0}' || c == '\U{1680}'
    || '\U{2000}' <= c <= '\U{200A}'
    || c == '\U{2028}' || c == '\U{2029}' || c == '\U{202F}' || c == '\U{205F}' || c == '\U{3000}' || c == '\U{FEFF}'
  }

  predicate NoWhitespace(s: string) {
    forall i :: 0 <= i < |s| ==> !IsWhitespace(s[i])
  }

  /** An upper-case letter that `toLowerCase` maps one place down the table: A-Z and the
      Latin-1 capitals other than the multiplication sign. */
  predicate IsUpper(c: char) {
    'A' <= c <= 'Z' || ('\U{C0}' <= c <= '\U{DE}' && c != '\U{D7}')
  }

  function LowerChar(c: char): (r: char)
    ensures !IsUpper(r)
    ensures IsWhitespace(r) == IsWhitespace(c)
    ensures !IsUpper(c) ==> r == c
    ensures IsUpper(c) ==> r as int == c as int + 32
  {
    if IsUpper(c) then (c as int + 32) as char else c
  }

  /** `toLowerCase`, restricted to the letters of `IsUpper`. */
  function ToLower(s: string): (r: string)
    ensures |r| == |s|
    ensures forall i :: 0 <= i < |s| ==> !IsUpper(r[i]) && IsWhitespace(r[i]) == IsWhitespace(s[i])
  {
    seq(|s|, i requires 0 <= i < |s| => LowerChar(s[i]))
  }

  /** The length of the run of whitespace that `s` starts with. */
  function LeadingWhitespace(s: string): (n: nat)
    ensures n <= |s|
    ensures forall i :: 0 <= i < n ==> IsWhitespace(s[i])
    ensures n == |s| || !IsWhitespace(s[n])
  {
    if s != [] && IsWhitespace(s[0]) then 1 + LeadingWhitespace(s[1..]) else 0
  }

  /** `replace(/\s+/g, '-')`: each maximal run of whitespace becomes one hyphen. */
  function CollapseWhitespace(s: string): (r: string)
    ensures |r| <= |s|
    decreases |s|
  {
    if s == [] then []
    else if IsWhitespace(s[0]) then "-" + CollapseWhitespace(s[LeadingWhitespace(s)..])
    else [s[0]] + CollapseWhitespace(s[1..])
  }

  /** No whitespace survives the collapsing step. */
  lemma {:induction false} CollapseLeavesNoWhitespace(s: string)
    ensures NoWhitespace(CollapseWhitespace(s))
    decreases |s|
  {
    if s != [] {
      if IsWhitespace(s[0]) {
        CollapseLeavesNoWhitespace(s[LeadingWhitespace(s)..]);
      } else {
        CollapseLeavesNoWhitespace(s[1..]);
      }
    }
  }

  /** The part of the file name taken from the full name: runs collapsed, then lower-cased.
      It holds no whitespace and no capital letter. */
  function Slug(fullName: string): (r: string)
    ensures NoWhitespace(r)
    ensures forall i :: 0 <= i < |r| ==> !IsUpper(r[i])
  {
    CollapseLeavesNoWhitespace(fullName);
    ToLower(CollapseWhitespace(fullName))
  }

  /** The file name `handleDownload` passes to the PDF generator. */
  function FileName(fullName: string): (r: string)
    ensures NoWhitespace(r)
    ensures forall i :: 0 <= i < |r| ==> !IsUpper(r[i])
  {
    "curriculo-" + Slug(fullName) + ".pdf"
  }

  /** A name without whitespace passes through the collapsing step unchanged. */
  lemma {:induction false} CollapseWithoutWhitespace(s: string)
    requires NoWhitespace(s)
    ensures CollapseWhitespace(s) == s
  {
    if s != [] {
      CollapseWithoutWhitespace(s[1..]);
    }
  }

  /** A run of whitespace followed by a non-whitespace character (or by nothing) is
      exactly the leading run. */
  lemma {:induction false} LeadingRun(run: string, rest: string)
    requires forall i :: 0 <= i < |run| ==> IsWhitespace(run[i])
    requires rest == [] || !IsWhitespace(rest[0])
    ensures LeadingWhitespace(run + rest) == |run|
  {
    if run == [] {
      assert run + rest == rest;
    } else {
      assert (run + rest)[0] == run[0];
      assert (run + rest)[1..] == run[1..] + rest;
      LeadingRun(run[1..], rest);
    }
  }

  /** A nonempty run of whitespace followed by a non-whitespace character (or by nothing)
      becomes exactly one hyphen. */
  lemma RunBecomesOneHyphen(run: string, rest: string)
    requires run != [] && forall i :: 0 <= i < |run| ==> IsWhitespace(run[i])
    requires rest == [] || !IsWhitespace(rest[0])
    ensures CollapseWhitespace(run + rest) == "-" + CollapseWhitespace(rest)
  {
    LeadingRun(run, rest);
    assert (run + rest)[0] == run[0];
    assert (run + rest)[|run|..] == rest;
  }

  /** A piece that ends on a non-whitespace character keeps its leading run when
      something is appended. */
  lemma LeadingRunOfAppend(a: string, b: string)
    requires a != [] && !IsWhitespace(a[|a| - 1])
    ensures LeadingWhitespace(a) < |a|
    ensures LeadingWhitespace(a + b) == LeadingWhitespace(a)
    ensures (a + b)[LeadingWhitespace(a)..] == a[LeadingWhitespace(a)..] + b
  {
    var n := LeadingWhitespace(a);
    var run, tail := a[..n], a[n..] + b;
    assert forall i :: 0 <= i < |run| ==> IsWhitespace(run[i]);
    assert tail[0] == a[n];
    assert a + b == run + tail;
    LeadingRun(run, tail);
  }

  /** The step of `CollapseAppend` for a piece that starts with whitespace: the leading
      run of `a + b` is the leading run of `a`, so it becomes the same hyphen. */
  lemma CollapseAppendRun(a: string, b: string)
    requires a != [] && !IsWhitespace(a[|a| - 1]) && IsWhitespace(a[0])
    requires var n := LeadingWhitespace(a);
      CollapseWhitespace(a[n..] + b) == CollapseWhitespace(a[n..]) + CollapseWhitespace(b)
    ensures CollapseWhitespace(a + b) == CollapseWhitespace(a) + CollapseWhitespace(b)
  {
    var n := LeadingWhitespace(a);
    LeadingRunOfAppend(a, b);
    assert (a + b)[0] == a[0];
    calc {
      CollapseWhitespace(a + b);
      "-" + CollapseWhitespace(a[n..] + b);
      "-" + (CollapseWhitespace(a[n..]) + CollapseWhitespace(b));
      ("-" + CollapseWhitespace(a[n..])) + CollapseWhitespace(b);
      CollapseWhitespace(a) + CollapseWhitespace(b);
    }
  }

  /** Collapsing works piece by piece wherever a piece ends on a non-whitespace
      character: no run of whitespace spans the cut. */
  lemma {:induction false} CollapseAppend(a: string, b: string)
    requires a != [] && !IsWhitespace(a[|a| - 1])
    ensures CollapseWhitespace(a + b) == CollapseWhitespace(a) + CollapseWhitespace(b)
    decreases |a|
  {
    var s := a + b;
    assert s[0] == a[0];
    if IsWhitespace(a[0]) {
      CollapseAppend(a[LeadingWhitespace(a)..], b);
      CollapseAppendRun(a, b);
    } else if |a| > 1 {
      assert s[1..] == a[1..] + b;
      CollapseAppend(a[1..], b);
    } else {
      assert s[1..] == b;
    }
  }

  lemma ToLowerAppend(a: string, b: string)
    ensures ToLower(a + b) == ToLower(a) + ToLower(b)
  {
  }

  /** Lower-casing keeps the leading run of whitespace where it is. */
  lemma LowerKeepsLeadingRun(s: string)
    ensures LeadingWhitespace(ToLower(s)) == LeadingWhitespace(s)
    ensures ToLower(s)[LeadingWhitespace(s)..] == ToLower(s[LeadingWhitespace(s)..])
  {
    var n := LeadingWhitespace(s);
    assert s == s[..n] + s[n..];
    ToLowerAppend(s[..n], s[n..]);
    LeadingRun(ToLower(s[..n]), ToLower(s[n..]));
  }

  /** The step of `LowerThenCollapse` for a name that starts with whitespace. */
  lemma LowerThenCollapseRun(s: string)
    requires s != [] && IsWhitespace(s[0])
    requires var rest := s[LeadingWhitespace(s)..];
      CollapseWhitespace(ToLower(rest)) == ToLower(CollapseWhitespace(rest))
    ensures CollapseWhitespace(ToLower(s)) == ToLower(CollapseWhitespace(s))
  {
    LowerKeepsLeadingRun(s);
    ToLowerAppend("-", CollapseWhitespace(s[LeadingWhitespace(s)..]));
  }

  /** The step of `LowerThenCollapse` for a name that starts with another character. */
  lemma LowerThenCollapseChar(s: string)
    requires s != [] && !IsWhitespace(s[0])
    requires CollapseWhitespace(ToLower(s[1..])) == ToLower(CollapseWhitespace(s[1..]))
    ensures CollapseWhitespace(ToLower(s)) == ToLower(CollapseWhitespace(s))
  {
    assert ToLower(s)[1..] == ToLower(s[1..]);
    ToLowerAppend([s[0]], CollapseWhitespace(s[1..]));
  }

  /** Lower-casing and collapsing can be done in either order. */
  lemma {:induction false} LowerThenCollapse(s: string)
    ensures CollapseWhitespace(ToLower(s)) == ToLower(CollapseWhitespace(s))
    decreases |s|
  {
    if s != [] {
      if IsWhitespace(s[0]) {
        LowerThenCollapse(s[LeadingWhitespace(s)..]);
        LowerThenCollapseRun(s);
      } else {
        LowerThenCollapse(s[1..]);
        LowerThenCollapseChar(s);
      }
    }
  }

  /** Applying the slug rule to a slug gives the same slug. */
  lemma SlugIdempotent(fullName: string)
    ensures Slug(Slug(fullName)) == Slug(fullName)
  {
    var slug := Slug(fullName);
    CollapseLeavesNoWhitespace(fullName);
    CollapseWithoutWhitespace(slug);
    assert ToLower(slug) == slug;
  }

  /** A non-whitespace character in front of a string is kept in front of its collapse. */
  lemma CollapseCons(c: char, t: string)
    requires !IsWhitespace(c)
    ensures CollapseWhitespace([c] + t) == [c] + CollapseWhitespace(t)
  {
    assert ([c] + t)[0] == c && ([c] + t)[1..] == t;
  }

  /** A word followed by one space: the space becomes a hyphen. */
  lemma {:induction false} WordThenSpace(w: string, rest: string)
    requires w != [] && NoWhitespace(w)
    requires rest == [] || !IsWhitespace(rest[0])
    ensures CollapseWhitespace(w + " " + rest) == w + "-" + CollapseWhitespace(rest)
    decreases |w|
  {
    var tail := w[1..] + " " + rest;
    assert w + " " + rest == [w[0]] + tail;
    CollapseCons(w[0], tail);
    if |w| == 1 {
      assert tail == " " + rest;
      RunBecomesOneHyphen(" ", rest);
    } else {
      WordThenSpace(w[1..], rest);
    }
    assert w == [w[0]] + w[1..];
  }

  /** The words joined with `sep` between each two of them. */
  function Joined(words: seq<string>, sep: string): (r: string)
    requires words != []
    ensures |r| >= |words[0]| && r[..|words[0]|] == words[0]
  {
    if |words| == 1 then words[0] else words[0] + sep + Joined(words[1..], sep)
  }

  predicate IsWord(w: string) {
    w != [] && NoWhitespace(w)
  }

  /** A name written as words separated by single spaces gets one hyphen per space. */
  lemma {:induction false} CollapseJoinedWords(words: seq<string>)
    requires words != []
    requires forall i :: 0 <= i < |words| ==> IsWord(words[i])
    ensures CollapseWhitespace(Joined(words, " ")) == Joined(words, "-")
    ensures IsWord(words[0]) && Joined(words, " ")[0] == words[0][0]
  {
    if |words| == 1 {
      CollapseWithoutWhitespace(words[0]);
    } else {
      var tail := words[1..];
      CollapseJoinedWords(tail);
      WordThenSpace(words[0], Joined(tail, " "));
    }
  }

  /** The file name of such a name: the lower-cased words joined by hyphens. */
  lemma FileNameOfWords(words: seq<string>)
    requires words != []
    requires forall i :: 0 <= i < |words| ==> IsWord(words[i])
    ensures FileName(Joined(words, " ")) == "curriculo-" + ToLower(Joined(words, "-")) + ".pdf"
  {
    CollapseJoinedWords(words);
  }

  /** Three words separated by single spaces. */
  lemma FileNameOfThreeWords(a: string, b: string, c: string)
    requires IsWord(a) && IsWord(b) && IsWord(c)
    ensures FileName(a + " " + b + " " + c) == "curriculo-" + ToLower(a + "-" + b + "-" + c) + ".pdf"
  {
    var words := [a, b, c];
    assert words[1..] == [b, c] && words[1..][1..] == [c];
    assert Joined([c], " ") == c && Joined([c], "-") == c;
    assert Joined([b, c], " ") == b + " " + c;
    assert Joined([b, c], "-") == b + "-" + c;
    assert Joined(words, " ") == a + " " + (b + " " + c);
    assert Joined(words, "-") == a + "-" + (b + "-" + c);
    assert a + " " + (b + " " + c) == a + " " + b + " " + c;
    assert a + "-" + (b + "-" + c) == a + "-" + b + "-" + c;
    FileNameOfWords(words);
  }
}

/** The file name of the example document. */
module PdfFileNameExample {
  import opened PdfFileName

  /** The lower-cased slug of the example name. The words of the example are parameters
      fixed by the `requires` here and below, so that the verifier reasons through the
      general lemmas about words instead of unrolling the recursive string functions over
      one long literal; each step of the example is a lemma of its own to keep each proof
      small. */
  lemma ExampleSlug(max: string, k: string, silva: string)
    requires max == "Max" && k == "K." && silva == "Silva"
    ensures ToLower(max + "-" + k + "-" + silva) == "max-k.-silva"
  {
  }

  /** The wrapping of the example slug. */
  lemma ExampleConcat()
    ensures "curriculo-" + "max-k.-silva" + ".pdf" == "curriculo-max-k.-silva.pdf"
  {
  }

  /** The name of the initial document, "Max K. Silva", gives "curriculo-max-k.-silva.pdf". */
  lemma ExampleFileName(max: string, k: string, silva: string)
    requires max == "Max" && k == "K." && silva == "Silva"
    ensures max + " " + k + " " + silva == "Max K. Silva"
    ensures FileName(max + " " + k + " " + silva) == "curriculo-max-k.-silva.pdf"
  {
    FileNameOfThreeWords(max, k, silva);
    ExampleSlug(max, k, silva);
    ExampleConcat();
  }
}
