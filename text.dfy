/** JavaScript strings as the line editor sees them: sequences of UTF-16 code
    units, and the string operations of term.js (cleanString, the newline
    normalisation of handleInput, trim, split on /\s+/, the `*` mask). */
module Text {

  datatype Option<+T> = None | Some(value: T)

  /** One UTF-16 code unit. JavaScript regular expressions without the `u`
      flag, `length` and `slice` all work on these. */
  newtype CodeUnit = c: int | 0 <= c < 0x1_0000

  type JsString = seq<CodeUnit>

  const NUL: CodeUnit := 0x00
  const ETX: CodeUnit := 0x03   // Ctrl-C
  const LF: CodeUnit := 0x0A
  const CR: CodeUnit := 0x0D
  const ESC: CodeUnit := 0x1B
  const SPACE: CodeUnit := 0x20
  const STAR: CodeUnit := 0x2A
  const MINUS: CodeUnit := 0x2D
  const QUESTION: CodeUnit := 0x3F
  const DEL: CodeUnit := 0x7F

  /** The code unit of one character of a Dafny literal (every literal of
      this model is ASCII, so the fallback is never taken). */
  function UnitOf(c: char): CodeUnit
  {
    if c as int < 0x1_0000 then c as int as CodeUnit else 0xFFFD
  }

  /** A Dafny string literal as a JavaScript string. */
  function Lit(s: string): (r: JsString)
    ensures |r| == |s|
  {
    seq(|s|, i requires 0 <= i < |s| => UnitOf(s[i]))
  }

  // ---------------------------------------------------------------------
  // Character classes
  // ---------------------------------------------------------------------

  /** The class [\x00-\x1F\x7F] that cleanString deletes. */
  predicate IsControl(c: CodeUnit)
  {
    c < 0x20 || c == DEL
  }

  /** Printable ASCII, 0x20..0x7E. */
  predicate IsPrintable(c: CodeUnit)
  {
    0x20 <= c <= 0x7E
  }

  predicate Printable(s: JsString)
  {
    forall i :: 0 <= i < |s| ==> IsPrintable(s[i])
  }

  /** ECMAScript WhiteSpace and LineTerminator: what `trim` strips and `\s`
      matches. */
  predicate IsJsSpace(c: CodeUnit)
  {
    c == 0x09 || c == 0x0A || c == 0x0B || c == 0x0C || c == 0x0D || c == 0x20
    || c == 0xA0 || c == 0x1680 || (0x2000 <= c <= 0x200A) || c == 0x2028
    || c == 0x2029 || c == 0x202F || c == 0x205F || c == 0x3000 || c == 0xFEFF
  }

  /** The code units that the regular expression `.` does not match. */
  predicate IsLineTerminator(c: CodeUnit)
  {
    c == LF || c == CR || c == 0x2028 || c == 0x2029
  }

  predicate AllSpace(s: JsString)
  {
    forall i :: 0 <= i < |s| ==> IsJsSpace(s[i])
  }

  predicate NoSpace(s: JsString)
  {
    forall i :: 0 <= i < |s| ==> !IsJsSpace(s[i])
  }

  /** On printable ASCII the only white space is the space character, and
      there is no line terminator. */
  lemma PrintableSpace(c: CodeUnit)
    requires IsPrintable(c)
    ensures IsJsSpace(c) <==> c == SPACE
    ensures !IsLineTerminator(c)
  {
  }

  // ---------------------------------------------------------------------
  // cleanString: two global replaces, applied in order
  // ---------------------------------------------------------------------

  /** Number of code units of `s` in the class [\x00-\x1F\x7F]. */
  function ControlCount(s: JsString): (n: nat)
    ensures n <= |s|
  {
    if s == [] then 0 else (if IsControl(s[0]) then 1 else 0) + ControlCount(s[1..])
  }

  /** `s.replace(/[\x00-\x1F\x7F]/g, "")` */
  function DropControls(s: JsString): (r: JsString)
    ensures |r| == |s| - ControlCount(s)
    ensures forall i :: 0 <= i < |r| ==> !IsControl(r[i])
  {
    if s == [] then []
    else if IsControl(s[0]) then DropControls(s[1..])
    else [s[0]] + DropControls(s[1..])
  }

  /** `s.replace(/[^\x00-\x7F]/g, "?")` */
  function ReplaceNonAscii(s: JsString): (r: JsString)
    ensures |r| == |s|
  {
    seq(|s|, i requires 0 <= i < |s| => if s[i] >= 0x80 then QUESTION else s[i])
  }

  /** IO.cleanString */
  function CleanString(s: JsString): (r: JsString)
    ensures Printable(r)
    ensures |r| == |s| - ControlCount(s)
  {
    ReplaceNonAscii(DropControls(s))
  }

  lemma {:induction false} DropControlsOfClean(s: JsString)
    requires forall i :: 0 <= i < |s| ==> !IsControl(s[i])
    ensures DropControls(s) == s
  {
    if s != [] {
      DropControlsOfClean(s[1..]);
      assert s == [s[0]] + s[1..];
    }
  }

  /** Printable text passes through cleanString unchanged. */
  lemma CleanStringOfPrintable(s: JsString)
    requires Printable(s)
    ensures CleanString(s) == s
  {
    DropControlsOfClean(s);
  }

  /** Cleaning twice is cleaning once. */
  lemma CleanStringIdempotent(s: JsString)
    ensures CleanString(CleanString(s)) == CleanString(s)
  {
    CleanStringOfPrintable(CleanString(s));
  }

  /** cleanString works one code unit at a time. */
  lemma {:induction false} CleanStringConcat(a: JsString, b: JsString)
    ensures CleanString(a + b) == CleanString(a) + CleanString(b)
  {
    DropControlsConcat(a, b);
  }

  lemma {:induction false} DropControlsConcat(a: JsString, b: JsString)
    ensures DropControls(a + b) == DropControls(a) + DropControls(b)
  {
    if a == [] {
      assert a + b == b;
    } else {
      assert (a + b)[0] == a[0];
      assert (a + b)[1..] == a[1..] + b;
      DropControlsConcat(a[1..], b);
    }
  }

  /** What cleanString makes of a single code unit. */
  lemma CleanStringUnit(c: CodeUnit)
    ensures CleanString([c]) == if IsControl(c) then [] else if c >= 0x80 then [QUESTION] else [c]
  {
    assert [c][1..] == [];
  }

  // ---------------------------------------------------------------------
  // handleInput's newline normalisation
  // ---------------------------------------------------------------------

  /** `s.replace(/\r\n/g, "\r")`, scanning left to right. */
  function CollapseCrLf(s: JsString): (r: JsString)
    ensures |r| <= |s|
    ensures r == [] <==> s == []
  {
    if |s| >= 2 && s[0] == CR && s[1] == LF then [CR] + CollapseCrLf(s[2..])
    else if s == [] then []
    else [s[0]] + CollapseCrLf(s[1..])
  }

  /** `s.replace(/\n/g, "\r")` */
  function LfToCr(s: JsString): (r: JsString)
    ensures |r| == |s|
    ensures forall i :: 0 <= i < |r| ==> r[i] != LF
  {
    seq(|s|, i requires 0 <= i < |s| => if s[i] == LF then CR else s[i])
  }

  /** The two replaces at the top of IO.handleInput. */
  function NormalizeNewlines(s: JsString): (r: JsString)
    ensures |r| <= |s|
    ensures forall i :: 0 <= i < |r| ==> r[i] != LF
  {
    LfToCr(CollapseCrLf(s))
  }

  /** The three Enter encodings all become a lone carriage return. */
  lemma NormalizeEnter()
    ensures NormalizeNewlines([CR]) == [CR]
    ensures NormalizeNewlines([LF]) == [CR]
    ensures NormalizeNewlines([CR, LF]) == [CR]
  {
    assert [CR, LF][2..] == [];
  }

  /** Only the three Enter encodings normalise to a lone carriage return. */
  lemma NormalizeEnterOnly(d: JsString)
    ensures NormalizeNewlines(d) == [CR] ==> d == [CR] || d == [LF] || d == [CR, LF]
  {
    var c := CollapseCrLf(d);
    if NormalizeNewlines(d) == [CR] {
      assert |c| == 1 && LfToCr(c)[0] == (if c[0] == LF then CR else c[0]);
      if |d| >= 2 && d[0] == CR && d[1] == LF {
        assert CollapseCrLf(d[2..]) == [];
        assert d == [CR, LF] + d[2..];
      } else {
        assert c == [d[0]] + CollapseCrLf(d[1..]);
        assert d == [d[0]] + d[1..];
      }
    }
  }

  /** `s` without its line feeds. */
  function RemoveLf(s: JsString): JsString
  {
    if s == [] then [] else (if s[0] == LF then [] else [s[0]]) + RemoveLf(s[1..])
  }

  /** Collapsing CR LF removes line feeds and nothing else: every other code
      unit is kept, in order. */
  lemma {:induction false} CollapseKeepsText(s: JsString)
    ensures RemoveLf(CollapseCrLf(s)) == RemoveLf(s)
    decreases |s|
  {
    if |s| >= 2 && s[0] == CR && s[1] == LF {
      var r := CollapseCrLf(s[2..]);
      CollapseKeepsText(s[2..]);
      assert ([CR] + r)[0] == CR && ([CR] + r)[1..] == r;
      assert RemoveLf([CR] + r) == [CR] + RemoveLf(r);
      assert s[1..][0] == LF && s[1..][1..] == s[2..];
      assert RemoveLf(s[1..]) == RemoveLf(s[2..]);
      assert RemoveLf(s) == [CR] + RemoveLf(s[1..]);
    } else if s != [] {
      var r := CollapseCrLf(s[1..]);
      CollapseKeepsText(s[1..]);
      assert ([s[0]] + r)[0] == s[0] && ([s[0]] + r)[1..] == r;
    }
  }

  /** The normalisation is invisible to the insert path: CR and LF are both
      removed by cleanString. */
  lemma NormalizeThenClean(d: JsString)
    ensures CleanString(NormalizeNewlines(d)) == CleanString(d)
  {
    CollapseDropControls(d);
    LfToCrDropControls(CollapseCrLf(d));
  }

  lemma {:induction false} CollapseDropControls(s: JsString)
    ensures DropControls(CollapseCrLf(s)) == DropControls(s)
    decreases |s|
  {
    if |s| >= 2 && s[0] == CR && s[1] == LF {
      var r := CollapseCrLf(s[2..]);
      CollapseDropControls(s[2..]);
      assert ([CR] + r)[0] == CR && ([CR] + r)[1..] == r;
      assert s[1..][0] == LF && s[1..][1..] == s[2..];
    } else if s != [] {
      var r := CollapseCrLf(s[1..]);
      CollapseDropControls(s[1..]);
      assert ([s[0]] + r)[0] == s[0] && ([s[0]] + r)[1..] == r;
    }
  }

  lemma {:induction false} LfToCrDropControls(s: JsString)
    ensures DropControls(LfToCr(s)) == DropControls(s)
    decreases |s|
  {
    if s != [] {
      LfToCrDropControls(s[1..]);
      assert LfToCr(s)[1..] == LfToCr(s[1..]);
    }
  }

  /** Text without CR or LF is left as it is. */
  lemma {:induction false} NormalizeNoNewline(s: JsString)
    requires forall i :: 0 <= i < |s| ==> s[i] != CR && s[i] != LF
    ensures NormalizeNewlines(s) == s
  {
    CollapseNoNewline(s);
  }

  lemma {:induction false} CollapseNoNewline(s: JsString)
    requires forall i :: 0 <= i < |s| ==> s[i] != CR
    ensures CollapseCrLf(s) == s
  {
    if s != [] {
      CollapseNoNewline(s[1..]);
    }
  }

  // ---------------------------------------------------------------------
  // The hidden-input mask
  // ---------------------------------------------------------------------

  /** `s.replace(/./g, "*")`: every code unit but a line terminator becomes `*`. */
  function Mask(s: JsString): (r: JsString)
    ensures |r| == |s|
  {
    seq(|s|, i requires 0 <= i < |s| => if IsLineTerminator(s[i]) then s[i] else STAR)
  }

  /** On printable text the mask is a row of `*` of the same length. */
  lemma MaskOfPrintable(s: JsString)
    requires Printable(s)
    ensures |Mask(s)| == |s|
    ensures forall i :: 0 <= i < |s| ==> Mask(s)[i] == STAR
  {
    forall i | 0 <= i < |s| ensures Mask(s)[i] == STAR {
      PrintableSpace(s[i]);
    }
  }

  // ---------------------------------------------------------------------
  // trim
  // ---------------------------------------------------------------------

  /** Leading white space removed. */
  function TrimStart(s: JsString): JsString
  {
    if s != [] && IsJsSpace(s[0]) then TrimStart(s[1..]) else s
  }

  /** Trailing white space removed. */
  function TrimEnd(s: JsString): JsString
  {
    if s != [] && IsJsSpace(s[|s| - 1]) then TrimEnd(s[..|s| - 1]) else s
  }

  /** TrimStart leaves the longest suffix of `s` that does not start with
      white space: what it drops is all white space. */
  lemma {:induction false} TrimStartSpec(s: JsString)
    ensures |TrimStart(s)| <= |s| && TrimStart(s) == s[|s| - |TrimStart(s)|..]
    ensures AllSpace(s[..|s| - |TrimStart(s)|])
    ensures TrimStart(s) == [] || !IsJsSpace(TrimStart(s)[0])
  {
    if s != [] && IsJsSpace(s[0]) {
      TrimStartSpec(s[1..]);
      var k := |s[1..]| - |TrimStart(s[1..])|;
      assert s[1..][k..] == s[k + 1..];
      assert s[..k + 1] == [s[0]] + s[1..][..k];
    } else {
      assert s[..0] == [];
    }
  }

  /** TrimEnd leaves the longest prefix of `s` that does not end in white
      space: what it drops is all white space. */
  lemma {:induction false} TrimEndSpec(s: JsString)
    ensures |TrimEnd(s)| <= |s| && TrimEnd(s) == s[..|TrimEnd(s)|]
    ensures AllSpace(s[|TrimEnd(s)|..])
    ensures TrimEnd(s) == [] || !IsJsSpace(TrimEnd(s)[|TrimEnd(s)| - 1])
  {
    if s != [] && IsJsSpace(s[|s| - 1]) {
      var p := s[..|s| - 1];
      TrimEndSpec(p);
      var k := |TrimEnd(p)|;
      assert p[..k] == s[..k];
      assert s[k..] == p[k..] + [s[|s| - 1]];
    } else {
      assert s[|s|..] == [];
    }
  }

  /** String.prototype.trim */
  function Trim(s: JsString): (r: JsString)
  {
    TrimEnd(TrimStart(s))
  }

  /** trim removes exactly white space from both ends: `s` is the result with a
      run of white space on either side, and the result neither starts nor ends
      with white space. It is empty exactly when `s` is all white space. */
  lemma TrimSpec(s: JsString)
    ensures exists a :: (0 <= a <= |s| - |Trim(s)| && s[a..a + |Trim(s)|] == Trim(s)
                         && AllSpace(s[..a]) && AllSpace(s[a + |Trim(s)|..]))
    ensures Trim(s) == [] || (!IsJsSpace(Trim(s)[0]) && !IsJsSpace(Trim(s)[|Trim(s)| - 1]))
    ensures Trim(s) == [] <==> AllSpace(s)
  {
    var a := |s| - |TrimStart(s)|;
    TrimPadding(s);
    assert 0 <= a <= |s| - |Trim(s)| && s[a..a + |Trim(s)|] == Trim(s)
           && AllSpace(s[..a]) && AllSpace(s[a + |Trim(s)|..]);
    TrimEnds(s);
    TrimBlank(s);
  }

  /** Where the result of trim sits in `s`. */
  lemma TrimPadding(s: JsString)
    ensures var a := |s| - |TrimStart(s)|;
            0 <= a <= |s| - |Trim(s)| && s[a..a + |Trim(s)|] == Trim(s)
            && AllSpace(s[..a]) && AllSpace(s[a + |Trim(s)|..])
  {
    var t := TrimStart(s);
    var r := TrimEnd(t);
    var a := |s| - |t|;
    TrimStartSpec(s);
    TrimEndSpec(t);
    assert t == s[a..];
    assert s[a..a + |r|] == t[..|r|];
    assert s[a + |r|..] == t[|r|..];
  }

  lemma TrimEnds(s: JsString)
    ensures Trim(s) == [] || (!IsJsSpace(Trim(s)[0]) && !IsJsSpace(Trim(s)[|Trim(s)| - 1]))
  {
    var t := TrimStart(s);
    var r := TrimEnd(t);
    TrimStartSpec(s);
    TrimEndSpec(t);
    if r != [] {
      assert r[0] == t[0];
    }
  }

  lemma TrimBlank(s: JsString)
    ensures Trim(s) == [] <==> AllSpace(s)
  {
    var t := TrimStart(s);
    var a := |s| - |t|;
    TrimStartSpec(s);
    TrimEndSpec(t);
    if Trim(s) == [] {
      assert t == [];
      assert s[..a] == s;
    } else {
      TrimEnds(s);
      assert t != [] && !IsJsSpace(t[0]);
      assert s[a] == t[0];
    }
  }

  /** The test `s.trim() === ""` of handleReturnKey and runCommand. */
  predicate IsBlank(s: JsString)
  {
    Trim(s) == []
  }

  // ---------------------------------------------------------------------
  // split(/\s+/)
  // ---------------------------------------------------------------------

  /** Index of the first white space code unit at or after `i`, or |s|. */
  function NextSpace(s: JsString, i: nat): (j: nat)
    requires i <= |s|
    ensures i <= j <= |s|
    ensures j < |s| ==> IsJsSpace(s[j])
    ensures NoSpace(s[i..j])
    decreases |s| - i
  {
    if i == |s| || IsJsSpace(s[i]) then i else NextSpace(s, i + 1)
  }

  /** End of the run of white space starting at `i`. */
  function SkipSpace(s: JsString, i: nat): (j: nat)
    requires i <= |s|
    ensures i <= j <= |s|
    ensures j < |s| ==> !IsJsSpace(s[j])
    ensures AllSpace(s[i..j])
    decreases |s| - i
  {
    if i < |s| && IsJsSpace(s[i]) then SkipSpace(s, i + 1) else i
  }

  /** `s.split(/\s+/)`: the pieces between maximal runs of white space. A
      separator at either end yields an empty first or last piece, as in
      JavaScript. */
  function Split(s: JsString): (parts: seq<JsString>)
    ensures |parts| >= 1
    ensures forall k :: 0 <= k < |parts| ==> NoSpace(parts[k])
    decreases |s|
  {
    var i := NextSpace(s, 0);
    if i == |s| then [s]
    else
      var j := SkipSpace(s, i);
      [s[..i]] + Split(s[j..])
  }

  /** The white-space runs that split(/\s+/) cuts at, in order. */
  function Separators(s: JsString): (seps: seq<JsString>)
    decreases |s|
  {
    var i := NextSpace(s, 0);
    if i == |s| then []
    else
      var j := SkipSpace(s, i);
      [s[i..j]] + Separators(s[j..])
  }

  /** Pieces interleaved with separators: p0 + s0 + p1 + s1 + ... + pn. */
  function Join(parts: seq<JsString>, seps: seq<JsString>): JsString
    requires |parts| == |seps| + 1
    decreases |seps|
  {
    if seps == [] then parts[0] else parts[0] + seps[0] + Join(parts[1..], seps[1..])
  }

  /** Where split cuts: `s` is its pieces with one non-empty run of white
      space between each two of them. Since no piece holds white space, the
      pieces are the maximal runs of non-space code units. */
  lemma {:induction false} SplitJoin(s: JsString)
    ensures |Separators(s)| == |Split(s)| - 1
    ensures forall k :: 0 <= k < |Separators(s)| ==> Separators(s)[k] != [] && AllSpace(Separators(s)[k])
    ensures Join(Split(s), Separators(s)) == s
    decreases |s|
  {
    var i := NextSpace(s, 0);
    if i < |s| {
      var j := SkipSpace(s, i);
      assert j > i;
      var a, m, b := s[..i], s[i..j], s[j..];
      SplitJoin(b);
      assert Split(s) == [a] + Split(b);
      assert Separators(s) == [m] + Separators(b);
      JoinCons(a, m, Split(b), Separators(b));
      assert s == a + m + b;
      var seps := Separators(s);
      forall k | 0 <= k < |seps| ensures seps[k] != [] && AllSpace(seps[k]) {
        if k > 0 {
          assert seps[k] == Separators(b)[k - 1];
        }
      }
    } else {
      assert Split(s) == [s] && Separators(s) == [];
    }
  }

  lemma JoinCons(p: JsString, q: JsString, ps: seq<JsString>, qs: seq<JsString>)
    requires |ps| == |qs| + 1
    ensures Join([p] + ps, [q] + qs) == p + q + Join(ps, qs)
  {
    assert ([p] + ps)[1..] == ps && ([q] + qs)[1..] == qs;
  }

  /** The non-space code units of `s`, in order. */
  function WithoutSpace(s: JsString): (r: JsString)
  {
    if s == [] then [] else (if IsJsSpace(s[0]) then [] else [s[0]]) + WithoutSpace(s[1..])
  }

  function Concat(parts: seq<JsString>): JsString
  {
    if parts == [] then [] else parts[0] + Concat(parts[1..])
  }

  lemma {:induction false} WithoutSpaceConcat(a: JsString, b: JsString)
    ensures WithoutSpace(a + b) == WithoutSpace(a) + WithoutSpace(b)
  {
    if a == [] {
      assert a + b == b;
    } else {
      assert (a + b)[0] == a[0];
      assert (a + b)[1..] == a[1..] + b;
      WithoutSpaceConcat(a[1..], b);
    }
  }

  lemma {:induction false} WithoutSpaceNone(s: JsString)
    requires NoSpace(s)
    ensures WithoutSpace(s) == s
  {
    if s != [] {
      WithoutSpaceNone(s[1..]);
    }
  }

  lemma {:induction false} WithoutSpaceAll(s: JsString)
    requires AllSpace(s)
    ensures WithoutSpace(s) == []
  {
    if s != [] {
      WithoutSpaceAll(s[1..]);
    }
  }

  /** split loses nothing but the white space: its pieces, put together,
      are the non-space code units of `s`. */
  lemma {:induction false} SplitKeepsText(s: JsString)
    ensures Concat(Split(s)) == WithoutSpace(s)
    decreases |s|
  {
    var i := NextSpace(s, 0);
    assert s[0..i] == s[..i];
    if i == |s| {
      assert s[..i] == s;
      WithoutSpaceNone(s);
      assert Concat([s]) == s + Concat([]);
    } else {
      var j := SkipSpace(s, i);
      var rest := Split(s[j..]);
      assert Split(s) == [s[..i]] + rest;
      assert Concat([s[..i]] + rest) == s[..i] + Concat(rest) by {
        assert ([s[..i]] + rest)[1..] == rest;
      }
      SplitKeepsText(s[j..]);
      WithoutSpaceAround(s, i, j);
    }
  }

  /** A space-free prefix, then a run of white space, then the rest. */
  lemma {:induction false} WithoutSpaceAround(s: JsString, i: nat, j: nat)
    requires i <= j <= |s|
    requires forall k :: 0 <= k < i ==> !IsJsSpace(s[k])
    requires forall k :: i <= k < j ==> IsJsSpace(s[k])
    ensures WithoutSpace(s) == s[..i] + WithoutSpace(s[j..])
    decreases j
  {
    if j == 0 {
      assert s[..0] == [] && s[0..] == s;
    } else {
      var t := s[1..];
      WithoutSpaceAround(t, if i == 0 then 0 else i - 1, j - 1);
      assert t[j - 1..] == s[j..];
      if i > 0 {
        assert s[..i] == [s[0]] + t[..i - 1];
      }
    }
  }

  /** On text with no white space at either end (a trimmed line), every piece
      is non-empty, and the first piece is everything up to the first white
      space. */
  lemma {:induction false} SplitTrimmed(s: JsString)
    requires s != [] && !IsJsSpace(s[0]) && !IsJsSpace(s[|s| - 1])
    ensures forall k :: 0 <= k < |Split(s)| ==> Split(s)[k] != []
    ensures Split(s)[0] == s[..NextSpace(s, 0)]
    ensures NextSpace(s, 0) > 0
    decreases |s|
  {
    var i := NextSpace(s, 0);
    if i < |s| {
      var j := SkipSpace(s, i);
      SplitTrimmed(s[j..]);
    }
  }

  /** Trimming removes only white space. */
  lemma TrimKeepsText(s: JsString)
    ensures WithoutSpace(Trim(s)) == WithoutSpace(s)
  {
    TrimStartKeepsText(s);
    TrimEndKeepsText(TrimStart(s));
  }

  lemma {:induction false} TrimStartKeepsText(s: JsString)
    ensures WithoutSpace(TrimStart(s)) == WithoutSpace(s)
  {
    if s != [] && IsJsSpace(s[0]) {
      TrimStartKeepsText(s[1..]);
    }
  }

  lemma TrimEndKeepsText(s: JsString)
    ensures WithoutSpace(TrimEnd(s)) == WithoutSpace(s)
  {
    var r := TrimEnd(s);
    TrimEndSpec(s);
    assert r == s[..|r|];
    assert s == s[..|r|] + s[|r|..];
    WithoutSpaceConcat(s[..|r|], s[|r|..]);
    WithoutSpaceAll(s[|r|..]);
  }
}
