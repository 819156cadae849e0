/** `cleanExtractedText` of src/services/ocrService.js: collapse every run of
    whitespace to one space, drop every character outside ASCII, trim. */
module OcrClean {
  import opened Js
  import opened Text

  /** The only whitespace character the text holds is the plain space. */
  predicate SpacesOnly(s: string) {
    forall i :: 0 <= i < |s| && IsWhitespace(s[i]) ==> s[i] == ' '
  }

  /** No two neighbouring characters are both whitespace. */
  predicate NoWhitespaceRuns(s: string) {
    forall i :: 0 <= i < |s| - 1 ==> !(IsWhitespace(s[i]) && IsWhitespace(s[i + 1]))
  }

  predicate AllAscii(s: string) {
    forall i :: 0 <= i < |s| ==> IsAscii(s[i])
  }

  /** The characters that carry content: ASCII and not whitespace, in order.
      This is the independent description of what cleaning keeps. */
  function Visible(s: string): string
    decreases |s|
  {
    if |s| == 0 then []
    else (if IsAscii(s[0]) && !IsWhitespace(s[0]) then [s[0]] else []) + Visible(s[1..])
  }

  /** `s.replace(/\s+/g, ' ')`. */
  function CollapseWhitespace(s: string): (r: string)
    ensures |r| <= |s|
    ensures SpacesOnly(r) && NoWhitespaceRuns(r)
    ensures |r| > 0 && IsWhitespace(r[0]) <==> |s| > 0 && IsWhitespace(s[0])
    decreases |s|
  {
    if |s| == 0 then []
    else if IsWhitespace(s[0]) then
      [' '] + CollapseWhitespace(TrimStart(s))
    else
      [s[0]] + CollapseWhitespace(s[1..])
  }

  /** `s.replace(/[^\x00-\x7F]/g, '')`. */
  function RemoveNonAscii(s: string): (r: string)
    ensures |r| <= |s|
    ensures AllAscii(r)
    decreases |s|
  {
    if |s| == 0 then []
    else
      var tail := RemoveNonAscii(s[1..]);
      if IsAscii(s[0]) then [s[0]] + tail else tail
  }

  /** Every ASCII character survives, as often as it occurs. */
  lemma {:induction false} RemoveNonAsciiKeepsEveryAscii(s: string)
    ensures forall c :: IsAscii(c) ==> multiset(RemoveNonAscii(s))[c] == multiset(s)[c]
    decreases |s|
  {
    if |s| > 0 {
      RemoveNonAsciiKeepsEveryAscii(s[1..]);
      assert s == [s[0]] + s[1..];
    }
  }

  /** `cleanExtractedText(text)`; a falsy argument (missing or "") gives "". */
  function CleanExtractedText(text: Option<string>): (cleaned: string)
    ensures !Truthy(text) ==> cleaned == ""
    ensures Truthy(text) ==> |cleaned| <= |text.value|
    ensures AllAscii(cleaned)
    ensures SpacesOnly(cleaned)
    ensures |cleaned| > 0 ==> !IsWhitespace(cleaned[0]) && !IsWhitespace(cleaned[|cleaned| - 1])
  {
    if !Truthy(text) then ""
    else
      var collapsed := CollapseWhitespace(text.value);
      var ascii := RemoveNonAscii(collapsed);
      RemoveNonAsciiKeepsSpacesOnly(collapsed);
      TrimKeepsAsciiSpaces(ascii);
      Trim(ascii)
  }

  /** Dropping characters cannot introduce whitespace other than spaces. */
  lemma {:induction false} RemoveNonAsciiKeepsSpacesOnly(s: string)
    requires SpacesOnly(s)
    ensures SpacesOnly(RemoveNonAscii(s))
    decreases |s|
  {
    if |s| > 0 {
      assert SpacesOnly(s[1..]) by {
        assert forall i :: 0 <= i < |s| - 1 ==> s[1..][i] == s[i + 1];
      }
      RemoveNonAsciiKeepsSpacesOnly(s[1..]);
    }
  }

  /** Collapsing ASCII text yields ASCII text. */
  lemma {:induction false} CollapseKeepsAscii(s: string)
    requires AllAscii(s)
    ensures AllAscii(CollapseWhitespace(s))
    decreases |s|
  {
    if |s| > 0 {
      if IsWhitespace(s[0]) {
        var rest := TrimStart(s);
        assert AllAscii(rest) by {
          assert forall i :: 0 <= i < |rest| ==> rest[i] == s[|s| - |rest| + i];
        }
        CollapseKeepsAscii(rest);
      } else {
        assert AllAscii(s[1..]) by {
          assert forall i :: 0 <= i < |s| - 1 ==> s[1..][i] == s[i + 1];
        }
        CollapseKeepsAscii(s[1..]);
      }
    }
  }

  // ---------------------------------------------------------------------
  // Trim as a slice
  // ---------------------------------------------------------------------

  /** The number of leading whitespace characters. */
  function LeadingWhitespace(s: string): nat {
    |s| - |TrimStart(s)|
  }

  /** Trimming keeps a contiguous middle part of the text. */
  lemma TrimIsSlice(s: string)
    ensures LeadingWhitespace(s) + |Trim(s)| <= |s|
    ensures Trim(s) == s[LeadingWhitespace(s)..LeadingWhitespace(s) + |Trim(s)|]
  {
    PrefixOfSuffix(s, TrimStart(s), TrimEnd(TrimStart(s)));
  }

  /** A prefix of a suffix is a slice. */
  lemma PrefixOfSuffix(s: string, t: string, r: string)
    requires |t| <= |s| && t == s[|s| - |t|..]
    requires |r| <= |t| && r == t[..|r|]
    ensures r == s[|s| - |t|..|s| - |t| + |r|]
  {
  }

  /** What trimming cuts off at either end is whitespace. */
  lemma TrimCutsWhitespace(s: string)
    ensures LeadingWhitespace(s) + |Trim(s)| <= |s|
    ensures forall i :: 0 <= i < LeadingWhitespace(s) ==> IsWhitespace(s[i])
    ensures forall i :: LeadingWhitespace(s) + |Trim(s)| <= i < |s| ==> IsWhitespace(s[i])
  {
    var t := TrimStart(s);
    var a := |s| - |t|;
    var r := TrimEnd(t);
    forall i | a + |r| <= i < |s|
      ensures IsWhitespace(s[i])
    {
      assert s[i] == t[i - a];
    }
  }

  /** A slice of ASCII text holding only plain spaces holds the same. */
  lemma SliceKeepsAsciiSpaces(s: string, a: nat, b: nat)
    requires a <= b <= |s| && AllAscii(s) && SpacesOnly(s)
    ensures AllAscii(s[a..b]) && SpacesOnly(s[a..b])
  {
    var t := s[a..b];
    assert forall i :: 0 <= i < |t| ==> t[i] == s[a + i];
  }

  /** Trimming ASCII text holding only plain spaces keeps it so. */
  lemma TrimKeepsAsciiSpaces(s: string)
    requires AllAscii(s) && SpacesOnly(s)
    ensures AllAscii(Trim(s)) && SpacesOnly(Trim(s))
  {
    TrimIsSlice(s);
    SliceKeepsAsciiSpaces(s, LeadingWhitespace(s), LeadingWhitespace(s) + |Trim(s)|);
  }

  // ---------------------------------------------------------------------
  // What cleaning keeps
  // ---------------------------------------------------------------------

  lemma {:induction false} VisibleConcat(a: string, b: string)
    ensures Visible(a + b) == Visible(a) + Visible(b)
    decreases |a|
  {
    if |a| == 0 {
      assert a + b == b;
    } else {
      assert (a + b)[1..] == a[1..] + b;
      VisibleConcat(a[1..], b);
    }
  }

  lemma {:induction false} VisibleOfTrimStart(s: string)
    ensures Visible(TrimStart(s)) == Visible(s)
    decreases |s|
  {
    if |s| > 0 && IsWhitespace(s[0]) {
      VisibleOfTrimStart(s[1..]);
    }
  }

  lemma {:induction false} VisibleOfTrimEnd(s: string)
    ensures Visible(TrimEnd(s)) == Visible(s)
    decreases |s|
  {
    if |s| > 0 && IsWhitespace(s[|s| - 1]) {
      var init, last := s[..|s| - 1], s[|s| - 1];
      VisibleOfTrimEnd(init);
      assert s == init + [last];
      VisibleConcat(init, [last]);
    }
  }

  lemma VisibleOfTrim(s: string)
    ensures Visible(Trim(s)) == Visible(s)
  {
    VisibleOfTrimStart(s);
    VisibleOfTrimEnd(TrimStart(s));
  }

  lemma {:induction false} VisibleOfCollapse(s: string)
    ensures Visible(CollapseWhitespace(s)) == Visible(s)
    decreases |s|
  {
    if |s| > 0 {
      if IsWhitespace(s[0]) {
        var rest := TrimStart(s);
        VisibleOfCollapse(rest);
        VisibleOfTrimStart(s);
        assert ([' '] + CollapseWhitespace(rest))[1..] == CollapseWhitespace(rest);
      } else {
        VisibleOfCollapse(s[1..]);
        assert ([s[0]] + CollapseWhitespace(s[1..]))[1..] == CollapseWhitespace(s[1..]);
      }
    }
  }

  lemma {:induction false} VisibleOfRemoveNonAscii(s: string)
    ensures Visible(RemoveNonAscii(s)) == Visible(s)
    decreases |s|
  {
    if |s| > 0 {
      VisibleOfRemoveNonAscii(s[1..]);
      if IsAscii(s[0]) {
        assert ([s[0]] + RemoveNonAscii(s[1..]))[1..] == RemoveNonAscii(s[1..]);
      }
    }
  }

  /** Cleaning keeps every visible ASCII character, in order, and nothing
      else but single spaces between them. */
  lemma CleanKeepsVisible(text: string)
    ensures Visible(CleanExtractedText(Some(text))) == Visible(text)
  {
    if |text| > 0 {
      var collapsed := CollapseWhitespace(text);
      VisibleOfCollapse(text);
      VisibleOfRemoveNonAscii(collapsed);
      VisibleOfTrim(RemoveNonAscii(collapsed));
    }
  }

  // ---------------------------------------------------------------------
  // Each whitespace run becomes exactly one space
  // ---------------------------------------------------------------------

  predicate AllWhitespace(w: string) {
    forall i :: 0 <= i < |w| ==> IsWhitespace(w[i])
  }

  /** Cutting a and b apart here does not split a whitespace run. */
  predicate SplitsNoRun(a: string, b: string) {
    |a| == 0 || |b| == 0 || !IsWhitespace(a[|a| - 1]) || !IsWhitespace(b[0])
  }

  /** Leading whitespace that stops inside a is all trimStart removes. */
  lemma {:induction false} TrimStartConcat(a: string, b: string)
    requires !AllWhitespace(a)
    ensures TrimStart(a + b) == TrimStart(a) + b
    decreases |a|
  {
    if IsWhitespace(a[0]) {
      assert (a + b)[1..] == a[1..] + b;
      TrimStartConcat(a[1..], b);
    }
  }

  /** Whitespace followed by content is trimmed away in full. */
  lemma {:induction false} TrimStartRun(w: string, b: string)
    requires AllWhitespace(w)
    requires |b| == 0 || !IsWhitespace(b[0])
    ensures TrimStart(w + b) == b
    decreases |w|
  {
    if |w| > 0 {
      assert (w + b)[1..] == w[1..] + b;
      TrimStartRun(w[1..], b);
    } else {
      assert w + b == b;
    }
  }

  /** A non-empty whitespace run collapses to a single space. */
  lemma CollapseRun(w: string)
    requires |w| > 0 && AllWhitespace(w)
    ensures CollapseWhitespace(w) == " "
  {
    TrimStartRun(w, []);
    assert w + [] == w;
  }

  /** Collapsing works piece by piece across any cut that does not fall
      inside a whitespace run; with CollapseRun and CollapseKeepsCollapsed
      this pins the result down: each run becomes one space and everything
      else stays. */
  lemma {:induction false} CollapseConcat(a: string, b: string)
    requires SplitsNoRun(a, b)
    ensures CollapseWhitespace(a + b) == CollapseWhitespace(a) + CollapseWhitespace(b)
    decreases |a|
  {
    if |a| == 0 {
      assert a + b == b;
    } else if !IsWhitespace(a[0]) {
      assert SplitsNoRun(a[1..], b);
      CollapseConcat(a[1..], b);
      CollapseConcatContent(a, b);
    } else if AllWhitespace(a) {
      TrimStartRun(a, b);
      CollapseRun(a);
    } else {
      var t := TrimStart(a);
      TrimStartConcat(a, b);
      assert |t| < |a|;
      assert SplitsNoRun(t, b) by { assert |t| > 0 && t[|t| - 1] == a[|a| - 1]; }
      CollapseConcat(t, b);
      CollapseConcatRun(a, b);
    }
  }

  /** The step of CollapseConcat past a character that is kept. */
  lemma {:induction false} CollapseConcatContent(a: string, b: string)
    requires |a| > 0 && !IsWhitespace(a[0])
    requires CollapseWhitespace(a[1..] + b) == CollapseWhitespace(a[1..]) + CollapseWhitespace(b)
    ensures CollapseWhitespace(a + b) == CollapseWhitespace(a) + CollapseWhitespace(b)
  {
    var x, y := CollapseWhitespace(a[1..]), CollapseWhitespace(b);
    KeptHead(a);
    KeptHead(a + b);
    TailOfConcat(a, b);
    ConsAssoc(a[0], x, y);
  }

  /** Collapsing past a character that is not whitespace keeps it. */
  lemma {:induction false} KeptHead(s: string)
    requires |s| > 0 && !IsWhitespace(s[0])
    ensures CollapseWhitespace(s) == [s[0]] + CollapseWhitespace(s[1..])
  {
  }

  lemma TailOfConcat(a: string, b: string)
    requires |a| > 0
    ensures (a + b)[0] == a[0] && (a + b)[1..] == a[1..] + b
  {
  }

  lemma ConsAssoc(c: char, x: string, y: string)
    ensures [c] + (x + y) == ([c] + x) + y
  {
  }

  /** The step of CollapseConcat past a leading run that ends inside a. */
  lemma {:induction false} CollapseConcatRun(a: string, b: string)
    requires |a| > 0 && IsWhitespace(a[0])
    requires TrimStart(a + b) == TrimStart(a) + b
    requires CollapseWhitespace(TrimStart(a) + b) == CollapseWhitespace(TrimStart(a)) + CollapseWhitespace(b)
    ensures CollapseWhitespace(a + b) == CollapseWhitespace(a) + CollapseWhitespace(b)
  {
    TailOfConcat(a, b);
    RunHead(a);
    RunHead(a + b);
    ConsAssoc(' ', CollapseWhitespace(TrimStart(a)), CollapseWhitespace(b));
  }

  /** Collapsing at a whitespace character emits one space and skips the run. */
  lemma {:induction false} RunHead(s: string)
    requires |s| > 0 && IsWhitespace(s[0])
    ensures CollapseWhitespace(s) == [' '] + CollapseWhitespace(TrimStart(s))
  {
  }

  // ---------------------------------------------------------------------
  // Idempotence
  // ---------------------------------------------------------------------

  /** Collapsing leaves text without whitespace runs or non-space
      whitespace unchanged. */
  lemma {:induction false} CollapseKeepsCollapsed(s: string)
    requires SpacesOnly(s) && NoWhitespaceRuns(s)
    ensures CollapseWhitespace(s) == s
    decreases |s|
  {
    if |s| > 0 {
      assert SpacesOnly(s[1..]) && NoWhitespaceRuns(s[1..]) by {
        assert forall i :: 0 <= i < |s| - 1 ==> s[1..][i] == s[i + 1];
      }
      CollapseKeepsCollapsed(s[1..]);
      if IsWhitespace(s[0]) {
        assert |s| > 1 ==> !IsWhitespace(s[1]);
        assert TrimStart(s) == s[1..];
        RunHead(s);
      } else {
        KeptHead(s);
      }
      assert s == [s[0]] + s[1..];
    }
  }

  lemma {:induction false} RemoveNonAsciiKeepsAscii(s: string)
    requires AllAscii(s)
    ensures RemoveNonAscii(s) == s
    decreases |s|
  {
    if |s| > 0 {
      RemoveNonAsciiKeepsAscii(s[1..]);
    }
  }

  /** Trimming text without whitespace runs leaves none. */
  lemma TrimKeepsNoRuns(s: string)
    requires NoWhitespaceRuns(s)
    ensures NoWhitespaceRuns(Trim(s))
  {
    TrimIsSlice(s);
    SliceKeepsNoRuns(s, LeadingWhitespace(s), LeadingWhitespace(s) + |Trim(s)|);
  }

  /** A slice of text without whitespace runs has none. */
  lemma SliceKeepsNoRuns(s: string, a: nat, b: nat)
    requires a <= b <= |s| && NoWhitespaceRuns(s)
    ensures NoWhitespaceRuns(s[a..b])
  {
    var t := s[a..b];
    forall i | 0 <= i < |t| - 1
      ensures !(IsWhitespace(t[i]) && IsWhitespace(t[i + 1]))
    {
      assert t[i] == s[a + i] && t[i + 1] == s[a + i + 1];
    }
  }

  /** Cleaning ASCII text leaves no whitespace runs. */
  lemma CleanedAsciiHasNoRuns(text: string)
    requires AllAscii(text) && |text| > 0
    ensures NoWhitespaceRuns(CleanExtractedText(Some(text)))
  {
    var collapsed := CollapseWhitespace(text);
    CollapseKeepsAscii(text);
    RemoveNonAsciiKeepsAscii(collapsed);
    TrimKeepsNoRuns(collapsed);
  }

  /** Text already in cleaned form is its own cleaning. */
  lemma CleanKeepsCleanText(c: string)
    requires AllAscii(c) && SpacesOnly(c) && NoWhitespaceRuns(c)
    requires |c| > 0 ==> !IsWhitespace(c[0]) && !IsWhitespace(c[|c| - 1])
    ensures CleanExtractedText(Some(c)) == c
  {
    if |c| > 0 {
      CollapseKeepsCollapsed(c);
      RemoveNonAsciiKeepsAscii(c);
      TrimKeepsTrimmed(c);
    }
  }

  /** On ASCII input cleaning is idempotent: a second pass changes nothing. */
  lemma CleanIdempotentOnAscii(text: string)
    requires AllAscii(text)
    ensures CleanExtractedText(Some(CleanExtractedText(Some(text)))) == CleanExtractedText(Some(text))
  {
    if |text| > 0 {
      CleanedAsciiHasNoRuns(text);
      CleanKeepsCleanText(CleanExtractedText(Some(text)));
    }
  }

  /** Cleaning a non-empty text is the three steps in turn. */
  lemma CleanSteps(text: string)
    requires |text| > 0
    ensures CleanExtractedText(Some(text)) == Trim(RemoveNonAscii(CollapseWhitespace(text)))
  {
    assert Truthy(Some(text));
  }

  lemma CollapseKeepsSingleSpaces()
    ensures CollapseWhitespace("a \U{E9} b") == "a \U{E9} b"
  {
    CollapseKeepsCollapsed("a \U{E9} b");
  }

  lemma AccentAloneDropped()
    ensures RemoveNonAscii("\U{E9} b") == " b"
  {
    RemoveNonAsciiKeepsAscii(" b");
    assert "\U{E9} b"[1..] == " b";
  }

  lemma AccentDropped()
    ensures RemoveNonAscii("a \U{E9} b") == "a  b"
  {
    AccentAloneDropped();
    assert RemoveNonAscii(" \U{E9} b") == "  b" by {
      assert " \U{E9} b"[1..] == "\U{E9} b";
    }
    assert "a \U{E9} b"[1..] == " \U{E9} b";
  }

  lemma LeadingSpacesTrimmed()
    ensures TrimStart("  b") == "b"
  {
    assert "  b"[1..] == " b" && " b"[1..] == "b";
  }

  lemma DoubleSpaceCollapsed()
    ensures CollapseWhitespace("a  b") == "a b"
  {
    LeadingSpacesTrimmed();
    CollapseKeepsCollapsed("b");
    assert "a  b"[1..] == "  b";
  }

  /** Cleaning drops the accented letter and keeps both spaces around it. */
  lemma CleanDropsAccent()
    ensures CleanExtractedText(Some("a \U{E9} b")) == "a  b"
  {
    CleanSteps("a \U{E9} b");
    CollapseKeepsSingleSpaces();
    AccentDropped();
    TrimKeepsTrimmed("a  b");
  }

  /** Cleaning collapses a double space. */
  lemma CleanCollapsesDoubleSpace()
    ensures CleanExtractedText(Some("a  b")) == "a b"
  {
    CleanSteps("a  b");
    DoubleSpaceCollapsed();
    RemoveNonAsciiKeepsAscii("a b");
    TrimKeepsTrimmed("a b");
  }

  /** Outside ASCII cleaning is not idempotent: dropping a character that
      sits between two spaces leaves two spaces side by side, which only a
      second pass collapses. */
  lemma CleanNotIdempotent()
    ensures CleanExtractedText(Some("a \U{E9} b")) == "a  b"
    ensures CleanExtractedText(Some("a  b")) == "a b"
  {
    CleanDropsAccent();
    CleanCollapsesDoubleSpace();
  }
}
