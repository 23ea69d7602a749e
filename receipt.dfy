/** Text helpers of the PDF receipt: the sanitiser every printed field goes
    through, and the name the receipt file is saved under. */
module Receipt {
  import opened Common

  // ------------------------------------------------------------------
  // Characters
  // ------------------------------------------------------------------

  /** JavaScript's \s class (and the set String.prototype.trim removes). */
  predicate IsJsSpace(c: char) {
    c == '\t' || c == '\n' || c == '\U{000B}' || c == '\U{000C}' || c == '\r' || c == ' '
    || c == '\U{00A0}' || c == '\U{1680}' || ('\U{2000}' <= c <= '\U{200A}')
    || c == '\U{2028}' || c == '\U{2029}' || c == '\U{202F}' || c == '\U{205F}'
    || c == '\U{3000}' || c == '\U{FEFF}'
  }

  /** Printable ASCII, 0x20 to 0x7E. */
  predicate IsPrintable(c: char) { ' ' <= c <= '~' }

  const Arrow: char := '\U{2192}'
  const RupeeSign: char := '\U{20B9}'

  /** What the sanitiser promises of its output: printable ASCII only, no
      space at either end, and never two spaces in a row. */
  predicate Clean(s: string) {
    (forall i :: 0 <= i < |s| ==> IsPrintable(s[i]))
    && (|s| > 0 ==> s[0] != ' ' && s[|s| - 1] != ' ')
    && (forall i :: 0 <= i < |s| - 1 ==> !(s[i] == ' ' && s[i + 1] == ' '))
  }

  // ------------------------------------------------------------------
  // The steps of the sanitiser
  // ------------------------------------------------------------------

  /** Every occurrence of c replaced by the string repl. */
  function ReplaceChar(s: string, c: char, repl: string): string {
    if s == [] then []
    else (if s[0] == c then repl else [s[0]]) + ReplaceChar(s[1..], c, repl)
  }

  /** Replacing leaves no c behind when repl has none, and brings in
      nothing but characters of the text and of repl. */
  lemma {:induction false} ReplaceCharRemoves(s: string, c: char, repl: string)
    requires forall i :: 0 <= i < |repl| ==> repl[i] != c
    ensures forall i :: 0 <= i < |ReplaceChar(s, c, repl)| ==> ReplaceChar(s, c, repl)[i] != c
    ensures forall x :: x in ReplaceChar(s, c, repl) ==> x in s || x in repl
  {
    if s != [] {
      ReplaceCharRemoves(s[1..], c, repl);
      assert ReplaceChar(s, c, repl) == (if s[0] == c then repl else [s[0]]) + ReplaceChar(s[1..], c, repl);
    }
  }

  /** Text without c is left as it is. */
  lemma {:induction false} ReplaceCharAbsent(s: string, c: char, repl: string)
    requires forall i :: 0 <= i < |s| ==> s[i] != c
    ensures ReplaceChar(s, c, repl) == s
  {
    if s != [] {
      ReplaceCharAbsent(s[1..], c, repl);
    }
  }

  /** Drops every character that is neither printable ASCII nor whitespace. */
  function KeepPrintable(s: string): (r: string)
    ensures |r| <= |s|
  {
    if s == [] then []
    else (if IsPrintable(s[0]) || IsJsSpace(s[0]) then [s[0]] else []) + KeepPrintable(s[1..])
  }

  /** What is kept is printable or whitespace. */
  lemma {:induction false} KeepPrintableChars(s: string)
    ensures forall i :: 0 <= i < |KeepPrintable(s)| ==> IsPrintable(KeepPrintable(s)[i]) || IsJsSpace(KeepPrintable(s)[i])
  {
    if s != [] {
      KeepPrintableChars(s[1..]);
    }
  }

  /** Text of printable characters and whitespace only is kept whole. */
  lemma {:induction false} KeepPrintableWhole(s: string)
    requires forall i :: 0 <= i < |s| ==> IsPrintable(s[i]) || IsJsSpace(s[i])
    ensures KeepPrintable(s) == s
  {
    if s != [] {
      KeepPrintableWhole(s[1..]);
    }
  }

  /** The suffix of s after its leading whitespace. */
  function DropSpaces(s: string): (r: string)
    ensures |r| <= |s| && r == s[|s| - |r|..]
    ensures |r| > 0 ==> !IsJsSpace(r[0])
    ensures |s| > 0 && !IsJsSpace(s[0]) ==> r == s
  {
    if s != [] && IsJsSpace(s[0]) then DropSpaces(s[1..]) else s
  }

  /** Each maximal run of whitespace replaced by one space. */
  function CollapseSpaces(s: string): (r: string)
    ensures |r| <= |s|
    decreases |s|
  {
    if s == [] then []
    else if IsJsSpace(s[0]) then [' '] + CollapseSpaces(DropSpaces(s[1..]))
    else [s[0]] + CollapseSpaces(s[1..])
  }

  /** The collapsed text starts with a space exactly when the text starts
      with whitespace. */
  lemma {:induction false} CollapseFirst(s: string)
    requires |s| > 0
    ensures |CollapseSpaces(s)| > 0
    ensures IsJsSpace(s[0]) <==> CollapseSpaces(s)[0] == ' '
  {
  }

  /** Collapsing never puts two spaces together. */
  lemma {:induction false} CollapseNoDouble(s: string)
    ensures forall i :: 0 <= i < |CollapseSpaces(s)| - 1 ==> !(CollapseSpaces(s)[i] == ' ' && CollapseSpaces(s)[i + 1] == ' ')
    decreases |s|
  {
    if s != [] {
      var t := if IsJsSpace(s[0]) then DropSpaces(s[1..]) else s[1..];
      var rest := CollapseSpaces(t);
      CollapseNoDouble(t);
      assert CollapseSpaces(s) == [if IsJsSpace(s[0]) then ' ' else s[0]] + rest;
      if IsJsSpace(s[0]) && t != [] {
        CollapseFirst(t);
      }
    }
  }

  /** String.prototype.trim: leading and trailing whitespace removed. */
  function TrimStart(s: string): (r: string)
    ensures |r| <= |s| && r == s[|s| - |r|..]
    ensures |r| > 0 ==> !IsJsSpace(r[0])
  {
    DropSpaces(s)
  }

  function TrimEnd(s: string): (r: string)
    ensures |r| <= |s| && r == s[..|r|]
    ensures |r| > 0 ==> !IsJsSpace(r[|r| - 1])
    ensures |s| > 0 && !IsJsSpace(s[|s| - 1]) ==> r == s
  {
    if s != [] && IsJsSpace(s[|s| - 1]) then TrimEnd(s[..|s| - 1]) else s
  }

  function Trim(s: string): (r: string)
    ensures |r| <= |s|
    ensures |r| > 0 ==> !IsJsSpace(r[0]) && !IsJsSpace(r[|r| - 1])
  {
    TrimEnd(TrimStart(s))
  }

  /** The receipt sanitiser. None stands for null or undefined; like the
      empty string it gives the empty string. Otherwise arrows become "to",
      rupee signs "INR", other characters outside printable ASCII and
      whitespace are dropped, whitespace runs become one space, and the
      ends are trimmed. */
  function SafeText(text: Option<string>): (r: string)
    ensures text.None? || text.value == [] ==> r == []
  {
    if text.None? || text.value == [] then []
    else Trim(CollapseSpaces(KeepPrintable(ReplaceChar(ReplaceChar(text.value, Arrow, "to"), RupeeSign, "INR"))))
  }

  // ------------------------------------------------------------------
  // Properties
  // ------------------------------------------------------------------

  /** Only printable characters and whitespace. */
  predicate PrintableOrSpace(s: string) {
    forall i :: 0 <= i < |s| ==> IsPrintable(s[i]) || IsJsSpace(s[i])
  }

  lemma {:induction false} SuffixPrintableOrSpace(s: string, k: nat)
    requires PrintableOrSpace(s) && k <= |s|
    ensures PrintableOrSpace(s[k..])
  {
    var t := s[k..];
    forall i | 0 <= i < |t| ensures IsPrintable(t[i]) || IsJsSpace(t[i]) {
      assert t[i] == s[k + i];
    }
  }

  /** Collapsing replaces every whitespace run by a space, so text of
      printable characters and whitespace becomes printable text. */
  lemma {:induction false} CollapsePrintable(s: string)
    requires PrintableOrSpace(s)
    ensures forall i :: 0 <= i < |CollapseSpaces(s)| ==> IsPrintable(CollapseSpaces(s)[i])
    decreases |s|
  {
    if s != [] {
      var u := s[1..];
      SuffixPrintableOrSpace(s, 1);
      if IsJsSpace(s[0]) {
        var t := DropSpaces(u);
        SuffixPrintableOrSpace(u, |u| - |t|);
        CollapsePrintable(t);
        assert CollapseSpaces(s) == [' '] + CollapseSpaces(t);
      } else {
        assert IsPrintable(s[0]);
        CollapsePrintable(u);
        assert CollapseSpaces(s) == [s[0]] + CollapseSpaces(u);
      }
    }
  }

  lemma {:induction false} SuffixLoose(s: string, k: nat)
    requires Loose(s) && k <= |s|
    ensures Loose(s[k..])
  {
    var t := s[k..];
    forall i | 0 <= i < |t| - 1 ensures !(t[i] == ' ' && t[i + 1] == ' ') {
      assert t[i] == s[k + i] && t[i + 1] == s[k + i + 1];
    }
  }

  lemma {:induction false} PrefixLoose(s: string, k: nat)
    requires Loose(s) && k <= |s|
    ensures Loose(s[..k])
  {
    var t := s[..k];
    forall i | 0 <= i < |t| - 1 ensures !(t[i] == ' ' && t[i + 1] == ' ') {
      assert t[i] == s[i] && t[i + 1] == s[i + 1];
    }
  }

  /** Trimming printable text without double spaces makes it clean. */
  lemma {:induction false} TrimKeeps(s: string)
    requires Loose(s)
    ensures Clean(Trim(s))
  {
    var t := TrimStart(s);
    SuffixLoose(s, |s| - |t|);
    var r := TrimEnd(t);
    PrefixLoose(t, |r|);
    if |r| > 0 {
      assert r[0] == t[0];
      assert !IsJsSpace(r[0]) && !IsJsSpace(r[|r| - 1]);
    }
  }

  /** The sanitiser's output is clean: printable ASCII, no leading or
      trailing space, no two spaces in a row. */
  lemma {:induction false} SafeTextClean(text: Option<string>)
    ensures Clean(SafeText(text))
  {
    if !(text.None? || text.value == []) {
      var a := ReplaceChar(ReplaceChar(text.value, Arrow, "to"), RupeeSign, "INR");
      var b := KeepPrintable(a);
      KeepPrintableChars(a);
      var c := CollapseSpaces(b);
      CollapsePrintable(b);
      CollapseNoDouble(b);
      TrimKeeps(c);
    }
  }

  /** Printable text without double spaces, possibly starting or ending with
      one space. */
  predicate Loose(s: string) {
    (forall i :: 0 <= i < |s| ==> IsPrintable(s[i]))
    && (forall i :: 0 <= i < |s| - 1 ==> !(s[i] == ' ' && s[i + 1] == ' '))
  }

  lemma {:induction false} CollapseCleanLoose(s: string)
    requires Loose(s)
    ensures CollapseSpaces(s) == s
    decreases |s|
  {
    if s != [] {
      var t := s[1..];
      assert Loose(t) by {
        forall i | 0 <= i < |t| - 1 ensures !(t[i] == ' ' && t[i + 1] == ' ') {
          assert t[i] == s[i + 1] && t[i + 1] == s[i + 2];
        }
      }
      if IsJsSpace(s[0]) {
        if t != [] {
          assert s[0] == ' ';
          assert t[0] != ' ';
          assert !IsJsSpace(t[0]);
        }
        assert DropSpaces(t) == t;
      }
      CollapseCleanLoose(t);
    }
  }

  /** A printable character other than the space is not whitespace. */
  lemma {:induction false} PrintableNotSpace(c: char)
    requires IsPrintable(c) && c != ' '
    ensures !IsJsSpace(c)
  {
  }

  /** Clean text has no arrow and no rupee sign to replace. */
  lemma {:induction false} CleanHasNoSigns(s: string)
    requires Clean(s)
    ensures ReplaceChar(ReplaceChar(s, Arrow, "to"), RupeeSign, "INR") == s
  {
    assert forall i :: 0 <= i < |s| ==> s[i] != Arrow && s[i] != RupeeSign;
    ReplaceCharAbsent(s, Arrow, "to");
    ReplaceCharAbsent(s, RupeeSign, "INR");
  }

  /** Clean text has no character to drop. */
  lemma {:induction false} CleanKeptWhole(s: string)
    requires Clean(s)
    ensures KeepPrintable(s) == s
  {
    assert forall i :: 0 <= i < |s| ==> IsPrintable(s[i]);
    KeepPrintableWhole(s);
  }

  /** Clean text has no whitespace at its ends to trim. */
  lemma {:induction false} CleanTrimmed(s: string)
    requires Clean(s)
    ensures Trim(s) == s
  {
    if s != [] {
      PrintableNotSpace(s[0]);
      PrintableNotSpace(s[|s| - 1]);
      assert TrimStart(s) == s;
    }
  }

  /** Clean text is a fixed point of the sanitiser. */
  lemma {:induction false} SafeTextFixesClean(s: string)
    requires Clean(s)
    ensures SafeText(Some(s)) == s
  {
    if s != [] {
      CleanHasNoSigns(s);
      CleanKeptWhole(s);
      CollapseCleanLoose(s);
      CleanTrimmed(s);
      var t := Trim(CollapseSpaces(KeepPrintable(ReplaceChar(ReplaceChar(s, Arrow, "to"), RupeeSign, "INR"))));
      assert t == s;
    }
  }

  /** Sanitising twice gives the same text as sanitising once. */
  lemma {:induction false} SafeTextIdempotent(text: Option<string>)
    ensures SafeText(Some(SafeText(text))) == SafeText(text)
  {
    SafeTextClean(text);
    SafeTextFixesClean(SafeText(text));
  }

  // ------------------------------------------------------------------
  // Receipt file name
  // ------------------------------------------------------------------

  /** The elements joined with the separator between them. */
  function Join(parts: seq<string>, sep: string): (r: string)
    ensures |parts| == 1 ==> r == parts[0]
    ensures |parts| > 1 ==> r == parts[0] + sep + Join(parts[1..], sep)
  {
    if parts == [] then [] else if |parts| == 1 then parts[0] else parts[0] + sep + Join(parts[1..], sep)
  }

  /** The first element of s.split(c): the text before the first c. */
  function FirstSegment(s: string, c: char): (r: string)
    ensures |r| <= |s| && r == s[..|r|]
    ensures forall i :: 0 <= i < |r| ==> r[i] != c
    ensures |r| < |s| ==> s[|r|] == c
  {
    if s == [] || s[0] == c then [] else [s[0]] + FirstSegment(s[1..], c)
  }

  /** The receipt is saved as booking-<first PNR>-multiple.pdf for several
      bookings and booking-<PNR>.pdf for one; the first PNR is cut from the
      comma-joined list of all PNRs. */
  function ReceiptFileName(pnrs: seq<string>): (name: string)
    requires |pnrs| >= 1
    ensures |name| >= 12 && name[..8] == "booking-" && name[|name| - 4..] == ".pdf"
  {
    if |pnrs| > 1 then "booking-" + FirstSegment(Join(pnrs, ", "), ',') + "-multiple.pdf"
    else "booking-" + pnrs[0] + ".pdf"
  }

  lemma {:induction false} FirstSegmentOfPrefix(a: string, b: string, c: char)
    requires forall i :: 0 <= i < |a| ==> a[i] != c
    requires |b| > 0 && b[0] == c
    ensures FirstSegment(a + b, c) == a
    decreases |a|
  {
    if a != [] {
      assert (a + b)[1..] == a[1..] + b;
      FirstSegmentOfPrefix(a[1..], b, c);
    } else {
      assert a + b == b;
    }
  }

  /** A PNR without a comma is recovered whole from the joined list, so the
      file name always carries the first booking's PNR. */
  lemma {:induction false} ReceiptFileNameFirstPnr(pnrs: seq<string>)
    requires |pnrs| >= 1
    requires forall i :: 0 <= i < |pnrs[0]| ==> pnrs[0][i] != ','
    ensures ReceiptFileName(pnrs) == "booking-" + pnrs[0] + (if |pnrs| > 1 then "-multiple" else "") + ".pdf"
  {
    if |pnrs| > 1 {
      var sep := ", " + Join(pnrs[1..], ", ");
      assert Join(pnrs, ", ") == pnrs[0] + sep;
      FirstSegmentOfPrefix(pnrs[0], sep, ',');
    }
  }
}
