/** The CSV import of the winner-declaration dialog: the file-type gate, the
    `split / map / filter` pipeline that turns the file's text into mobile
    numbers, and the batch bounds that accept or reject the whole import. */
module CsvImport {
  import opened Common
  import opened Mobile

  /** Largest batch one import may load. */
  const MaxBatch: nat := 200

  /** A chosen file: its name, its declared MIME type and its text. */
  datatype FileInput = FileInput(name: string, mimeType: string, text: string)

  datatype ImportError = NoFile | NotCsv | NoValidNumbers | TooManyNumbers

  // ---------------------------------------------------------------------
  // text.split(/\r?\n/)

  /** Splits at every `\n` and at every `\r\n`, scanning left to right as
      `String.prototype.split` with the pattern `\r?\n` does; a `\r` not
      followed by `\n` stays in its line. */
  function SplitLines(text: string): (lines: seq<string>)
    ensures |lines| >= 1
    ensures forall i :: 0 <= i < |lines| ==> '\n' !in lines[i]
    decreases |text|
  {
    if text == [] then [""]
    else if text[0] == '\n' then [""] + SplitLines(text[1..])
    else if text[0] == '\r' && |text| >= 2 && text[1] == '\n' then [""] + SplitLines(text[2..])
    else
      var rest := SplitLines(text[1..]);
      [[text[0]] + rest[0]] + rest[1..]
  }

  /** The lines written out with `sep` between consecutive ones. */
  function Join(lines: seq<string>, sep: string): string
  {
    if lines == [] then ""
    else if |lines| == 1 then lines[0]
    else lines[0] + sep + Join(lines[1..], sep)
  }

  predicate EndsWithCR(s: string) {
    |s| > 0 && s[|s| - 1] == '\r'
  }

  lemma {:induction false} SplitSingleLine(l: string)
    requires '\n' !in l
    ensures SplitLines(l) == [l]
    decreases |l|
  {
    if l != [] {
      SplitSingleLine(l[1..]);
      assert [l[0]] + l[1..] == l;
    }
  }

  lemma {:induction false} SplitAfterLine(l: string, sep: string, rest: string)
    requires sep == "\n" || sep == "\r\n"
    requires '\n' !in l
    requires sep == "\n" ==> !EndsWithCR(l)
    ensures SplitLines(l + sep + rest) == [l] + SplitLines(rest)
    decreases |l|
  {
    var t := l + sep + rest;
    if l == [] {
      assert t == sep + rest;
      if sep == "\n" {
        assert t[1..] == rest;
      } else {
        assert t[2..] == rest;
      }
    } else {
      assert t[0] == l[0];
      assert t[1..] == l[1..] + sep + rest;
      if |l| == 1 {
        assert |t| >= 2 && t[1] == sep[0];
      } else {
        assert t[1] == l[1];
        assert l[1] in l;
      }
      assert EndsWithCR(l[1..]) ==> EndsWithCR(l);
      SplitAfterLine(l[1..], sep, rest);
      assert [l[0]] + l[1..] == l;
    }
  }

  /** Splitting text written with `\r\n` line ends gives the lines back. */
  lemma {:induction false} SplitJoinCrLf(lines: seq<string>)
    requires |lines| >= 1
    requires forall i :: 0 <= i < |lines| ==> '\n' !in lines[i]
    ensures SplitLines(Join(lines, "\r\n")) == lines
  {
    if |lines| == 1 {
      SplitSingleLine(lines[0]);
    } else {
      SplitAfterLine(lines[0], "\r\n", Join(lines[1..], "\r\n"));
      SplitJoinCrLf(lines[1..]);
    }
  }

  /** Splitting text written with `\n` line ends gives the lines back, as long
      as no line but the last ends in `\r` (that `\r` would be taken as part
      of a `\r\n` break). */
  lemma {:induction false} SplitJoinLf(lines: seq<string>)
    requires |lines| >= 1
    requires forall i :: 0 <= i < |lines| ==> '\n' !in lines[i]
    requires forall i :: 0 <= i < |lines| - 1 ==> !EndsWithCR(lines[i])
    ensures SplitLines(Join(lines, "\n")) == lines
  {
    if |lines| == 1 {
      SplitSingleLine(lines[0]);
    } else {
      SplitAfterLine(lines[0], "\n", Join(lines[1..], "\n"));
      SplitJoinLf(lines[1..]);
    }
  }

  // ---------------------------------------------------------------------
  // line.trim().replace(/^"|"$/g, "")

  /** WhiteSpace and LineTerminator of ECMAScript, which `trim` removes. */
  predicate IsJsWhitespace(c: char) {
    || c == '\t' || c == '\n' || c == '\U{000B}' || c == '\U{000C}' || c == '\r'
    || c == ' ' || c == '\U{00A0}' || c == '\U{1680}'
    || ('\U{2000}' <= c <= '\U{200A}')
    || c == '\U{2028}' || c == '\U{2029}' || c == '\U{202F}' || c == '\U{205F}'
    || c == '\U{3000}' || c == '\U{FEFF}'
  }

  /** Length of the run of white space that starts `s`. */
  function LeadingSpace(s: string): (n: nat)
    ensures n <= |s|
    ensures forall i :: 0 <= i < n ==> IsJsWhitespace(s[i])
    ensures n < |s| ==> !IsJsWhitespace(s[n])
  {
    if s == [] || !IsJsWhitespace(s[0]) then 0 else 1 + LeadingSpace(s[1..])
  }

  /** Length of the run of white space that ends `s`. */
  function TrailingSpace(s: string): (n: nat)
    ensures n <= |s|
    ensures forall i :: |s| - n <= i < |s| ==> IsJsWhitespace(s[i])
    ensures n < |s| ==> !IsJsWhitespace(s[|s| - 1 - n])
  {
    if s == [] || !IsJsWhitespace(s[|s| - 1]) then 0 else 1 + TrailingSpace(s[..|s| - 1])
  }

  /** `String.prototype.trim`: the slice of `s` left once the white space at
      both ends is gone. */
  function Trim(s: string): (r: string)
    ensures LeadingSpace(s) + |r| <= |s|
    ensures r == s[LeadingSpace(s)..LeadingSpace(s) + |r|]
    ensures forall i :: LeadingSpace(s) + |r| <= i < |s| ==> IsJsWhitespace(s[i])
    ensures r == [] || (!IsJsWhitespace(r[0]) && !IsJsWhitespace(r[|r| - 1]))
  {
    var t := s[LeadingSpace(s)..];
    var r := t[..|t| - TrailingSpace(t)];
    assert forall i :: LeadingSpace(s) + |r| <= i < |s| ==> s[i] == t[i - LeadingSpace(s)];
    r
  }

  /** `replace(/^"|"$/g, "")`: one leading and one trailing double quote go.
      For `"` alone only one quote is removed, as the regular expression
      does. */
  function StripQuotes(s: string): string
  {
    var t := if |s| > 0 && s[0] == '"' then s[1..] else s;
    if |t| > 0 && t[|t| - 1] == '"' then t[..|t| - 1] else t
  }

  function Normalise(line: string): string
  {
    StripQuotes(Trim(line))
  }

  predicate AllWhitespace(s: string) {
    forall i :: 0 <= i < |s| ==> IsJsWhitespace(s[i])
  }

  /** `Trim` is pinned down by where the first and last non-space
      characters are. */
  lemma TrimBetween(s: string, a: nat, e: nat)
    requires a < e <= |s|
    requires forall i :: 0 <= i < a ==> IsJsWhitespace(s[i])
    requires forall i :: e <= i < |s| ==> IsJsWhitespace(s[i])
    requires !IsJsWhitespace(s[a]) && !IsJsWhitespace(s[e - 1])
    ensures Trim(s) == s[a..e]
  {
    var n := LeadingSpace(s);
    assert n == a;
    var r := Trim(s);
    assert |r| >= e - a;
    assert |r| > 0 ==> r[|r| - 1] == s[a + |r| - 1];
  }

  /** Trimming removes exactly the padding around a word that neither begins
      nor ends with white space. */
  lemma TrimPadded(pre: string, w: string, post: string)
    requires AllWhitespace(pre) && AllWhitespace(post)
    requires w != [] && !IsJsWhitespace(w[0]) && !IsJsWhitespace(w[|w| - 1])
    ensures Trim(pre + w + post) == w
  {
    var s := pre + w + post;
    var a, e := |pre|, |pre| + |w|;
    assert forall i :: 0 <= i < a ==> s[i] == pre[i];
    assert forall i :: e <= i < |s| ==> s[i] == post[i - e];
    assert s[a] == w[0] && s[e - 1] == w[|w| - 1];
    TrimBetween(s, a, e);
    assert s[a..e] == w;
  }

  /** Quoting is undone: one pair of surrounding quotes goes, whatever the
      quoted text is. */
  lemma StripQuotesWrapped(m: string)
    ensures StripQuotes("\"" + m + "\"") == m
  {
    var s := "\"" + m + "\"";
    assert s[1..] == m + "\"";
    assert (m + "\"")[..|m|] == m;
  }

  /** Text that neither starts nor ends with a quote is left alone. */
  lemma StripQuotesPlain(m: string)
    requires m == [] || (m[0] != '"' && m[|m| - 1] != '"')
    ensures StripQuotes(m) == m
  {
  }

  /** A valid number survives normalisation however it is padded with white
      space and whether or not it is quoted. */
  lemma NormaliseRecoversMobile(pre: string, m: string, post: string, quoted: bool)
    requires AllWhitespace(pre) && AllWhitespace(post)
    requires IsValidMobile(m)
    ensures Normalise(pre + (if quoted then "\"" + m + "\"" else m) + post) == m
  {
    ValidMobileIsPlain(m);
    assert !IsJsWhitespace(m[0]) && !IsJsWhitespace(m[9]);
    if quoted {
      TrimPadded(pre, "\"" + m + "\"", post);
      StripQuotesWrapped(m);
    } else {
      TrimPadded(pre, m, post);
      StripQuotesPlain(m);
    }
  }

  // ---------------------------------------------------------------------
  // .map(normalise).filter(isValidMobile)

  function NormaliseAll(lines: seq<string>): (r: seq<string>)
    ensures |r| == |lines|
    ensures forall i :: 0 <= i < |lines| ==> r[i] == Normalise(lines[i])
  {
    if lines == [] then [] else [Normalise(lines[0])] + NormaliseAll(lines[1..])
  }

  function KeepValid(xs: seq<string>): (r: seq<string>)
    ensures |r| <= |xs|
    ensures forall i :: 0 <= i < |r| ==> IsValidMobile(r[i])
  {
    if xs == [] then []
    else (if IsValidMobile(xs[0]) then [xs[0]] else []) + KeepValid(xs[1..])
  }

  /** The numbers the import loads from a file's text, in file order. */
  function ParseMobiles(text: string): seq<string>
  {
    KeepValid(NormaliseAll(SplitLines(text)))
  }

  /** `a` occurs in `b` in order, possibly with gaps. */
  predicate IsSubsequence(a: seq<string>, b: seq<string>)
    decreases |b|
  {
    if a == [] then true
    else if b == [] then false
    else if a[0] == b[0] then IsSubsequence(a[1..], b[1..])
    else IsSubsequence(a, b[1..])
  }

  /** Filtering keeps every valid entry as often as it occurs (duplicates are
      kept) and drops every invalid one. */
  lemma {:induction false} KeepValidCounts(xs: seq<string>, x: string)
    ensures multiset(KeepValid(xs))[x] == if IsValidMobile(x) then multiset(xs)[x] else 0
  {
    if xs != [] {
      KeepValidCounts(xs[1..], x);
      assert xs == [xs[0]] + xs[1..];
    }
  }

  /** Filtering keeps the input order. */
  lemma {:induction false} KeepValidKeepsOrder(xs: seq<string>)
    ensures IsSubsequence(KeepValid(xs), xs)
  {
    if xs != [] {
      KeepValidKeepsOrder(xs[1..]);
      var rest := KeepValid(xs[1..]);
      if IsValidMobile(xs[0]) {
        assert KeepValid(xs)[1..] == rest;
      } else {
        assert KeepValid(xs) == rest;
        assert rest != [] ==> rest[0] != xs[0];
      }
    }
  }

  /** Nothing is dropped from a list that holds only valid numbers. */
  lemma {:induction false} KeepValidOfValid(xs: seq<string>)
    requires forall i :: 0 <= i < |xs| ==> IsValidMobile(xs[i])
    ensures KeepValid(xs) == xs
  {
    if xs != [] {
      KeepValidOfValid(xs[1..]);
      assert [xs[0]] + xs[1..] == xs;
    }
  }

  /** A file listing valid numbers one per line, with `\n` or `\r\n` line
      ends, loads exactly those numbers in the same order. */
  lemma {:induction false} ParseRoundTrip(ms: seq<string>)
    requires |ms| >= 1
    requires forall i :: 0 <= i < |ms| ==> IsValidMobile(ms[i])
    ensures ParseMobiles(Join(ms, "\n")) == ms
    ensures ParseMobiles(Join(ms, "\r\n")) == ms
  {
    forall i | 0 <= i < |ms| ensures '\n' !in ms[i] && !EndsWithCR(ms[i]) && Normalise(ms[i]) == ms[i] {
      ValidMobileIsPlain(ms[i]);
      NormaliseRecoversMobile("", ms[i], "", false);
      assert "" + ms[i] + "" == ms[i];
      assert forall k :: 0 <= k < |ms[i]| ==> ms[i][k] != '\n';
    }
    SplitJoinLf(ms);
    SplitJoinCrLf(ms);
    assert NormaliseAll(ms) == ms;
    KeepValidOfValid(ms);
  }

  // ---------------------------------------------------------------------
  // handleFileChange's decisions

  predicate EndsWith(s: string, suffix: string) {
    |suffix| <= |s| && s[|s| - |suffix|..] == suffix
  }

  /** `file.type === "text/csv" || file.name.endsWith(".csv")`. */
  predicate IsCsvFile(f: FileInput) {
    f.mimeType == "text/csv" || EndsWith(f.name, ".csv")
  }

  /** What choosing `file` loads, or why the import is refused. */
  function ImportCsv(file: Option<FileInput>): (r: Result<seq<string>, ImportError>)
    ensures r.Ok? ==> file.Some? && IsCsvFile(file.value) && r.value == ParseMobiles(file.value.text)
    ensures r.Ok? ==> 1 <= |r.value| <= MaxBatch
  {
    match file
    case None => Err(NoFile)
    case Some(f) =>
      if !IsCsvFile(f) then Err(NotCsv)
      else
        var lines := ParseMobiles(f.text);
        if |lines| == 0 then Err(NoValidNumbers)
        else if |lines| > MaxBatch then Err(TooManyNumbers)
        else Ok(lines)
  }

  /** The error toast shown for each refusal. */
  function ImportMessage(e: ImportError): (m: string)
    ensures m != ""
  {
    match e
    case NoFile => "No file selected."
    case NotCsv => "Please upload a valid CSV file."
    case NoValidNumbers => "No valid mobile numbers found."
    case TooManyNumbers => "Maximum 200 mobile numbers allowed."
  }

  /** The import accepts exactly the CSV files with between 1 and 200 valid
      lines, and then loads every one of them: a larger file is refused
      whole, never cut down. */
  lemma ImportAcceptsBoundedBatches(f: FileInput)
    ensures ImportCsv(Some(f)).Ok? <==> IsCsvFile(f) && 1 <= |ParseMobiles(f.text)| <= MaxBatch
    ensures IsCsvFile(f) && |ParseMobiles(f.text)| > MaxBatch ==> ImportCsv(Some(f)) == Err(TooManyNumbers)
    ensures IsCsvFile(f) && ParseMobiles(f.text) == [] ==> ImportCsv(Some(f)) == Err(NoValidNumbers)
    ensures !IsCsvFile(f) ==> ImportCsv(Some(f)) == Err(NotCsv)
  {
  }

  /** A CSV file listing 1 to 200 valid numbers loads them all, in order;
      one listing more is refused. */
  lemma ImportListedNumbers(name: string, ms: seq<string>)
    requires |ms| >= 1
    requires forall i :: 0 <= i < |ms| ==> IsValidMobile(ms[i])
    ensures ImportCsv(Some(FileInput(name, "text/csv", Join(ms, "\n")))) ==
            if |ms| <= MaxBatch then Ok(ms) else Err(TooManyNumbers)
  {
    ParseRoundTrip(ms);
  }
}
