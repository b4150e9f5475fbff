/** The yt-dlp plugin's splitter of extra command-line arguments. */
module ArgTokenizer {
  import opened Prelude

  /** What the language's trim removes; wider than what separates arguments. */
  predicate IsBlank(c: char) {
    || 9 as char <= c <= 13 as char || c == ' ' || c == '\U{A0}' || c == '\U{1680}' || '\U{2000}' <= c <= '\U{200A}'
    || c == '\U{2028}' || c == '\U{2029}' || c == '\U{202F}' || c == '\U{205F}' || c == '\U{3000}' || c == '\U{FEFF}'
  }

  predicate IsSeparator(c: char) {
    c == ' ' || c == '\t' || c == '\n' || c == '\r'
  }

  predicate IsQuote(c: char) {
    c == '"' || c == '\''
  }

  function TrimStart(s: string): string {
    if s != [] && IsBlank(s[0]) then TrimStart(s[1..]) else s
  }

  function TrimEnd(s: string): string {
    if s != [] && IsBlank(s[|s| - 1]) then TrimEnd(s[..|s| - 1]) else s
  }

  function Trim(s: string): string {
    TrimEnd(TrimStart(s))
  }

  /** The arguments in the rest of the line: `quote` is the open quotation mark, `cur` what has been
      read of the current argument, `has` whether there is one. */
  function Tokens(s: string, quote: Option<char>, cur: string, has: bool): seq<string>
    decreases |s|
  {
    if s == [] then (if has then [cur] else [])
    else
      var c := s[0];
      if quote.Some? then
        if c == '\\' && |s| > 1 && (s[1] == quote.value || s[1] == '\\') then Tokens(s[2..], quote, cur + [s[1]], has)
        else if c == quote.value then Tokens(s[1..], None, cur, has)
        else Tokens(s[1..], quote, cur + [c], has)
      else if IsQuote(c) then Tokens(s[1..], Some(c), cur, true)
      else if IsSeparator(c) then
        if has then [cur] + Tokens(s[1..], None, "", false) else Tokens(s[1..], None, cur, has)
      else Tokens(s[1..], None, cur + [c], true)
  }

  function Arguments(raw: string): seq<string> {
    Tokens(Trim(raw), None, "", false)
  }

  method ParseExtraArgs(raw: string) returns (out: seq<string>)
    ensures out == Arguments(raw)
  {
    var s := Trim(raw);
    if s == "" {
      return [];
    }
    out := [];
    var cur, quote: Option<char>, has := "", None, false;
    var i := 0;
    while i < |s|
      invariant i <= |s|
      invariant out + Tokens(s[i..], quote, cur, has) == Tokens(s, None, "", false)
    {
      var c := s[i];
      assert s[i..][0] == c && s[i..][1..] == s[i + 1..];
      if quote.Some? {
        if c == '\\' && i + 1 < |s| && (s[i + 1] == quote.value || s[i + 1] == '\\') {
          assert s[i..][1] == s[i + 1] && s[i..][2..] == s[i + 2..];
          i := i + 1;
          cur := cur + [s[i]];
        } else if c == quote.value {
          quote := None;
        } else {
          cur := cur + [c];
        }
      } else if IsQuote(c) {
        quote, has := Some(c), true;
      } else if IsSeparator(c) {
        if has {
          out, cur, has := out + [cur], "", false;
        }
      } else {
        cur, has := cur + [c], true;
      }
      i := i + 1;
    }
    if has {
      out := out + [cur];
    }
  }

  // ---------- writing arguments ----------

  /** A part of an argument and the way it is written: bare; between the quotation marks `mark`, with a
      backslash before every backslash and mark; or between them as it is. */
  datatype Piece = Bare(text: string) | Quoted(mark: char, text: string) | Verbatim(mark: char, text: string)

  predicate Proper(p: Piece) {
    match p
    case Bare(text) => text != "" && forall c <- text :: c != '"' && c != '\'' && !IsSeparator(c) && !IsBlank(c)
    case Quoted(mark, _) => mark == '"' || mark == '\''
    case Verbatim(mark, text) => (mark == '"' || mark == '\'') && Unescaped(mark, text)
  }

  /** What stands there is no mark, and no backslash that ends the text or precedes another. */
  predicate Ordinary(mark: char, text: string, i: nat)
    requires i < |text|
  {
    text[i] != mark && (text[i] == '\\' ==> i + 1 < |text| && text[i + 1] != '\\')
  }

  predicate Unescaped(mark: char, text: string) {
    forall i :: 0 <= i < |text| ==> Ordinary(mark, text, i)
  }

  /** A backslash before every backslash and every mark. */
  function Escape(mark: char, text: string): string {
    if text == "" then ""
    else (if text[0] == mark || text[0] == '\\' then ['\\', text[0]] else [text[0]]) + Escape(mark, text[1..])
  }

  function Text(p: Piece): string {
    match p
    case Bare(text) => text
    case Quoted(mark, text) => [mark] + Escape(mark, text) + [mark]
    case Verbatim(mark, text) => [mark] + text + [mark]
  }

  /** An argument is one or more pieces, written without a gap. */
  type Written = seq<Piece>

  function ArgText(w: Written): string {
    if w == [] then "" else Text(w[0]) + ArgText(w[1..])
  }

  function Argument(w: Written): string {
    if w == [] then "" else w[0].text + Argument(w[1..])
  }

  predicate ProperArg(w: Written) {
    w != [] && forall p <- w :: Proper(p)
  }

  /** The arguments of a line, with gaps between them. */
  function Line(ws: seq<Written>, gaps: seq<string>): string
    requires |ws| <= |gaps| + 1
  {
    if ws == [] then ""
    else if |ws| == 1 then ArgText(ws[0])
    else ArgText(ws[0]) + (gaps[0] + Line(ws[1..], gaps[1..]))
  }

  function Args(ws: seq<Written>): seq<string> {
    if ws == [] then [] else [Argument(ws[0])] + Args(ws[1..])
  }

  /** One or more spaces, tabs, line feeds and carriage returns. */
  predicate IsGap(gap: string) {
    gap != "" && forall c <- gap :: c in {' ', '\t', '\n', '\r'}
  }

  predicate ProperLine(ws: seq<Written>, gaps: seq<string>) {
    |ws| <= |gaps| + 1 && (forall w <- ws :: ProperArg(w)) && forall gap <- gaps :: IsGap(gap)
  }

  lemma {:induction false} ReadQuoted(mark: char, arg: string, cur: string, rest: string)
    requires IsQuote(mark)
    ensures Tokens(Escape(mark, arg) + [mark] + rest, Some(mark), cur, true) == Tokens(rest, None, cur + arg, true)
    decreases |arg|
  {
    var s := Escape(mark, arg) + [mark] + rest;
    if arg == "" {
      assert s[1..] == rest && cur + arg == cur;
    } else {
      var more := Escape(mark, arg[1..]) + [mark] + rest;
      ReadQuoted(mark, arg[1..], cur + [arg[0]], rest);
      assert cur + [arg[0]] + arg[1..] == cur + arg;
      if arg[0] == mark || arg[0] == '\\' {
        assert s == ['\\', arg[0]] + more;
      } else {
        assert s == [arg[0]] + more;
      }
    }
  }

  lemma UnescapedRest(mark: char, text: string)
    requires Unescaped(mark, text) && text != ""
    ensures Unescaped(mark, text[1..])
  {
    forall i | 0 <= i < |text[1..]| ensures Ordinary(mark, text[1..], i) {
      assert Ordinary(mark, text, i + 1);
    }
  }

  lemma {:induction false} ReadVerbatim(mark: char, text: string, cur: string, rest: string)
    requires IsQuote(mark) && Unescaped(mark, text)
    ensures Tokens(text + [mark] + rest, Some(mark), cur, true) == Tokens(rest, None, cur + text, true)
    decreases |text|
  {
    var s := text + [mark] + rest;
    if text == "" {
      assert s[1..] == rest && cur + text == cur;
    } else {
      assert s[0] == text[0] && s[1..] == text[1..] + [mark] + rest;
      assert Ordinary(mark, text, 0) && (|text| > 1 ==> s[1] == text[1] && Ordinary(mark, text, 1));
      UnescapedRest(mark, text);
      ReadVerbatim(mark, text[1..], cur + [text[0]], rest);
      assert cur + [text[0]] + text[1..] == cur + text;
    }
  }

  lemma {:induction false} ReadBare(arg: string, cur: string, has: bool, rest: string)
    requires forall c <- arg :: !IsQuote(c) && !IsSeparator(c)
    ensures Tokens(arg + rest, None, cur, has) == Tokens(rest, None, cur + arg, has || arg != "")
    decreases |arg|
  {
    if arg == "" {
      assert arg + rest == rest && cur + arg == cur;
    } else {
      assert (arg + rest)[1..] == arg[1..] + rest && arg[0] in arg;
      ReadBare(arg[1..], cur + [arg[0]], true, rest);
      assert cur + [arg[0]] + arg[1..] == cur + arg;
    }
  }

  lemma ReadPiece(p: Piece, cur: string, has: bool, rest: string)
    requires Proper(p)
    ensures Tokens(Text(p) + rest, None, cur, has) == Tokens(rest, None, cur + p.text, true)
  {
    match p
    case Bare(text) => ReadBare(text, cur, has, rest);
    case Quoted(mark, text) =>
      assert Text(p) + rest == [mark] + (Escape(mark, text) + [mark] + rest);
      ReadQuoted(mark, text, cur, rest);
    case Verbatim(mark, text) =>
      assert Text(p) + rest == [mark] + (text + [mark] + rest);
      ReadVerbatim(mark, text, cur, rest);
  }

  lemma ProperRest(w: Written)
    requires w != [] && forall p <- w :: Proper(p)
    ensures Proper(w[0]) && forall p <- w[1..] :: Proper(p)
  {
    assert w == [w[0]] + w[1..];
  }

  lemma {:induction false} ReadArg(w: Written, cur: string, has: bool, rest: string)
    requires forall p <- w :: Proper(p)
    ensures Tokens(ArgText(w) + rest, None, cur, has) == Tokens(rest, None, cur + Argument(w), has || w != [])
    decreases |w|
  {
    if w == [] {
      assert ArgText(w) + rest == rest && cur + Argument(w) == cur;
    } else {
      ProperRest(w);
      var head, more, now := Text(w[0]), ArgText(w[1..]), cur + w[0].text;
      assert ArgText(w) + rest == head + (more + rest);
      ReadPiece(w[0], cur, has, more + rest);
      ReadArg(w[1..], now, true, rest);
      assert now + Argument(w[1..]) == cur + Argument(w);
    }
  }

  /** A gap ends the argument before it, if there is one. */
  lemma {:induction false} ReadGap(gap: string, cur: string, has: bool, rest: string)
    requires forall c <- gap :: c in {' ', '\t', '\n', '\r'}
    requires gap == "" || !has ==> cur == "" && !has
    ensures Tokens(gap + rest, None, cur, has) == (if has then [cur] else []) + Tokens(rest, None, "", false)
    decreases |gap|
  {
    if gap == "" {
      assert gap + rest == rest;
    } else {
      assert gap[0] in gap && (gap + rest)[1..] == gap[1..] + rest && forall c <- gap[1..] :: c in gap;
      ReadGap(gap[1..], "", false, rest);
    }
  }

  lemma {:induction false} ReadLine(ws: seq<Written>, gaps: seq<string>)
    requires ProperLine(ws, gaps)
    ensures Tokens(Line(ws, gaps), None, "", false) == Args(ws)
  {
    if ws != [] {
      assert ws[0] in ws && "" + Argument(ws[0]) == Argument(ws[0]);
      if |ws| == 1 {
        ReadArg(ws[0], "", false, "");
        assert ArgText(ws[0]) + "" == ArgText(ws[0]) && Args(ws[1..]) == [];
      } else {
        var rest := Line(ws[1..], gaps[1..]);
        ReadArg(ws[0], "", false, gaps[0] + rest);
        assert IsGap(gaps[0]);
        ReadGap(gaps[0], Argument(ws[0]), true, rest);
        assert ProperLine(ws[1..], gaps[1..]);
        ReadLine(ws[1..], gaps[1..]);
      }
    }
  }

  predicate Tight(s: string) {
    s == "" || (!IsBlank(s[0]) && !IsBlank(s[|s| - 1]))
  }

  lemma PieceTight(p: Piece)
    requires Proper(p)
    ensures Text(p) != "" && Tight(Text(p))
  {
    if p.Bare? {
      assert p.text[0] in p.text && p.text[|p.text| - 1] in p.text;
    }
  }

  lemma {:induction false} ArgTight(w: Written)
    requires forall p <- w :: Proper(p)
    ensures Tight(ArgText(w)) && (w != [] ==> ArgText(w) != "")
  {
    if w != [] {
      assert w[0] in w && forall p <- w[1..] :: p in w;
      PieceTight(w[0]);
      ArgTight(w[1..]);
    }
  }

  lemma {:induction false} LineTight(ws: seq<Written>, gaps: seq<string>)
    requires ProperLine(ws, gaps)
    ensures Tight(Line(ws, gaps)) && (ws != [] ==> Line(ws, gaps) != "")
  {
    if ws != [] {
      assert ws[0] in ws;
      ArgTight(ws[0]);
      if |ws| > 1 {
        assert ProperLine(ws[1..], gaps[1..]);
        LineTight(ws[1..], gaps[1..]);
      }
    }
  }

  predicate Blanks(s: string) {
    forall c <- s :: IsBlank(c)
  }

  lemma {:induction false} StartTrimmed(lead: string, s: string)
    requires Blanks(lead) && (s != "" ==> !IsBlank(s[0]))
    ensures TrimStart(lead + s) == s
  {
    if lead == "" {
      assert lead + s == s;
    } else {
      assert lead[0] in lead && (lead + s)[1..] == lead[1..] + s;
      StartTrimmed(lead[1..], s);
    }
  }

  lemma {:induction false} EndTrimmed(s: string, tail: string)
    requires Blanks(tail) && (s != "" ==> !IsBlank(s[|s| - 1]))
    ensures TrimEnd(s + tail) == s
    decreases |tail|
  {
    if tail == "" {
      assert s + tail == s;
    } else {
      var n := |tail| - 1;
      assert tail[n] in tail && (s + tail)[..|s| + n] == s + tail[..n];
      EndTrimmed(s, tail[..n]);
    }
  }

  lemma TrimmedIs(lead: string, s: string, tail: string)
    requires Blanks(lead) && Blanks(tail) && Tight(s)
    ensures Trim(lead + (s + tail)) == s
  {
    if s == "" {
      assert lead + (s + tail) == (lead + tail) + "";
      assert Blanks(lead + tail);
      StartTrimmed(lead + tail, "");
    } else {
      StartTrimmed(lead, s + tail);
      EndTrimmed(s, tail);
    }
  }

  /** Whatever the arguments are, and however they are written, in pieces that are bare, quoted with either
      mark, or quoted as they are, with any gaps between them and any blanks around, the splitter reads
      back exactly the arguments. */
  lemma WrittenArgumentsAreRead(ws: seq<Written>, gaps: seq<string>, lead: string, tail: string)
    requires ProperLine(ws, gaps) && Blanks(lead) && Blanks(tail)
    ensures Arguments(lead + (Line(ws, gaps) + tail)) == Args(ws)
  {
    LineTight(ws, gaps);
    TrimmedIs(lead, Line(ws, gaps), tail);
    ReadLine(ws, gaps);
  }

  function DoubleQuoted(args: seq<string>): (ws: seq<Written>)
    ensures |ws| == |args|
  {
    if args == [] then [] else [[Quoted('"', args[0])]] + DoubleQuoted(args[1..])
  }

  function Spaces(n: nat): (gaps: seq<string>)
    ensures |gaps| == n && forall gap <- gaps :: gap == " "
  {
    seq(n, i => " ")
  }

  lemma {:induction false} DoubleQuotedArgs(args: seq<string>)
    ensures Args(DoubleQuoted(args)) == args
    ensures forall w <- DoubleQuoted(args) :: ProperArg(w)
  {
    if args != [] {
      var first, rest := [Quoted('"', args[0])], DoubleQuoted(args[1..]);
      DoubleQuotedArgs(args[1..]);
      assert first[1..] == [] && Argument([]) == "" && Argument(first) == args[0] + "" == args[0];
      assert ([first] + rest)[1..] == rest;
    }
  }

  lemma LineIsRead(ws: seq<Written>, gaps: seq<string>)
    requires ProperLine(ws, gaps)
    ensures Arguments(Line(ws, gaps)) == Args(ws)
  {
    WrittenArgumentsAreRead(ws, gaps, "", "");
    assert "" + (Line(ws, gaps) + "") == Line(ws, gaps);
  }

  lemma ProperQuoted(args: seq<string>)
    ensures ProperLine(DoubleQuoted(args), Spaces(|args|))
  {
    DoubleQuotedArgs(args);
    assert IsGap(" ");
  }

  /** Every list of strings survives double-quoting, joining by spaces and splitting. */
  lemma SplitterUndoesQuoting(args: seq<string>)
    ensures Arguments(Line(DoubleQuoted(args), Spaces(|args|))) == args
  {
    ProperQuoted(args);
    LineIsRead(DoubleQuoted(args), Spaces(|args|));
    DoubleQuotedArgs(args);
  }

  // ---------- trimming ----------

  /** The quotation that is open after the rest of the line. */
  function OpenAfter(s: string, quote: Option<char>): Option<char>
    decreases |s|
  {
    if s == [] then quote
    else if quote.Some? then
      if s[0] == '\\' && |s| > 1 && (s[1] == quote.value || s[1] == '\\') then OpenAfter(s[2..], quote)
      else OpenAfter(s[1..], if s[0] == quote.value then None else quote)
    else OpenAfter(s[1..], if IsQuote(s[0]) then Some(s[0]) else None)
  }

  /** How many characters of the rest of the line end up in arguments. */
  function Content(s: string, quote: Option<char>): nat
    decreases |s|
  {
    if s == [] then 0
    else if quote.Some? then
      if s[0] == '\\' && |s| > 1 && (s[1] == quote.value || s[1] == '\\') then 1 + Content(s[2..], quote)
      else if s[0] == quote.value then Content(s[1..], None)
      else 1 + Content(s[1..], quote)
    else if IsQuote(s[0]) then Content(s[1..], Some(s[0]))
    else (if IsSeparator(s[0]) then 0 else 1) + Content(s[1..], None)
  }

  function Total(args: seq<string>): nat {
    if args == [] then 0 else |args[0]| + Total(args[1..])
  }

  lemma TotalPut(cur: string, rest: seq<string>)
    ensures Total([cur] + rest) == |cur| + Total(rest)
  {
    assert ([cur] + rest)[0] == cur && ([cur] + rest)[1..] == rest;
  }

  lemma TotalOfOne(cur: string)
    ensures Total([cur]) == |cur|
  {
    assert [cur][1..] == [];
  }

  lemma {:induction false} TotalInQuote(s: string, mark: char, cur: string)
    requires s != ""
    ensures Total(Tokens(s, Some(mark), cur, true)) == |cur| + Content(s, Some(mark))
    decreases |s|, 0
  {
    if s[0] == '\\' && |s| > 1 && (s[1] == mark || s[1] == '\\') {
      TotalIsContent(s[2..], Some(mark), cur + [s[1]], true);
    } else if s[0] == mark {
      TotalIsContent(s[1..], None, cur, true);
    } else {
      TotalIsContent(s[1..], Some(mark), cur + [s[0]], true);
    }
  }

  lemma {:induction false} TotalOutside(s: string, cur: string, has: bool)
    requires s != "" && (has || cur == "")
    ensures Total(Tokens(s, None, cur, has)) == |cur| + Content(s, None)
    decreases |s|, 0
  {
    if IsQuote(s[0]) {
      TotalIsContent(s[1..], Some(s[0]), cur, true);
    } else if IsSeparator(s[0]) {
      TotalIsContent(s[1..], None, "", false);
      TotalPut(cur, Tokens(s[1..], None, "", false));
    } else {
      TotalIsContent(s[1..], None, cur + [s[0]], true);
    }
  }

  lemma {:induction false} TotalIsContent(s: string, quote: Option<char>, cur: string, has: bool)
    requires has || (cur == "" && quote == None)
    ensures Total(Tokens(s, quote, cur, has)) == |cur| + Content(s, quote)
    decreases |s|, 1
  {
    if s == "" {
      TotalOfOne(cur);
    } else if quote.Some? {
      TotalInQuote(s, quote.value, cur);
    } else {
      TotalOutside(s, cur, has);
    }
  }

  predicate Separators(s: string) {
    forall c <- s :: IsSeparator(c)
  }

  lemma {:induction false} ContentOfBlanks(s: string, quote: Option<char>)
    requires Blanks(s) && (quote.Some? ==> IsQuote(quote.value))
    ensures Content(s, quote) == 0 <==> s == "" || (quote == None && Separators(s))
    decreases |s|
  {
    if s != "" && quote == None {
      assert s[0] in s && s == [s[0]] + s[1..];
      ContentOfBlanks(s[1..], None);
      assert Separators(s) == (IsSeparator(s[0]) && Separators(s[1..]));
    } else if s != "" {
      assert s[0] in s;
    }
  }

  /** Blanks in front of a line take no part in how it is read. */
  lemma {:induction false} BlanksBefore(lead: string, s: string)
    requires Blanks(lead)
    ensures Content(lead + s, None) == Content(lead, None) + Content(s, None)
    ensures Separators(lead) ==> Tokens(lead + s, None, "", false) == Tokens(s, None, "", false)
    decreases |lead|
  {
    if lead == "" {
      assert lead + s == s;
    } else {
      assert lead[0] in lead && (lead + s)[1..] == lead[1..] + s;
      BlanksBefore(lead[1..], s);
    }
  }

  lemma {:induction false} OpenIsQuote(s: string, quote: Option<char>)
    requires quote.Some? ==> IsQuote(quote.value)
    ensures OpenAfter(s, quote).Some? ==> IsQuote(OpenAfter(s, quote).value)
    decreases |s|
  {
    if s == "" {
    } else if quote.Some? {
      if s[0] == '\\' && |s| > 1 && (s[1] == quote.value || s[1] == '\\') {
        OpenIsQuote(s[2..], quote);
      } else {
        OpenIsQuote(s[1..], if s[0] == quote.value then None else quote);
      }
    } else {
      OpenIsQuote(s[1..], if IsQuote(s[0]) then Some(s[0]) else None);
    }
  }

  /** Blanks behind a line are read in the quotation it leaves open. */
  lemma {:induction false} BlanksBehind(t: string, tail: string, quote: Option<char>)
    requires Blanks(tail) && (quote.Some? ==> IsQuote(quote.value))
    ensures Content(t + tail, quote) == Content(t, quote) + Content(tail, OpenAfter(t, quote))
    decreases |t|
  {
    var s := t + tail;
    if t == "" {
      assert s == tail;
    } else {
      var c, rest := t[0], t[1..];
      assert s[0] == c && s[1..] == rest + tail;
      assert |t| == 1 && tail != "" ==> s[1] == tail[0] && tail[0] in tail;
      if quote.Some? {
        if c == '\\' && |t| > 1 && (t[1] == quote.value || t[1] == '\\') {
          assert s[1] == t[1] && s[2..] == t[2..] + tail;
          BlanksBehind(t[2..], tail, quote);
        } else if c == quote.value {
          BlanksBehind(rest, tail, None);
        } else {
          BlanksBehind(rest, tail, quote);
        }
      } else if IsQuote(c) {
        BlanksBehind(rest, tail, Some(c));
      } else {
        BlanksBehind(rest, tail, None);
      }
    }
  }

  lemma {:induction false} SeparatorsOnly(tail: string, cur: string, has: bool)
    requires Separators(tail)
    ensures Tokens(tail, None, cur, has) == if has then [cur] else []
    decreases |tail|
  {
    if tail != "" {
      assert tail[0] in tail;
      SeparatorsOnly(tail[1..], if has then "" else cur, false);
    }
  }

  lemma {:induction false} SeparatorsBehind(t: string, tail: string, quote: Option<char>, cur: string, has: bool)
    requires Separators(tail) && OpenAfter(t, quote) == None && (quote.Some? ==> IsQuote(quote.value))
    ensures Tokens(t + tail, quote, cur, has) == Tokens(t, quote, cur, has)
    decreases |t|
  {
    var s := t + tail;
    if t == "" {
      assert s == tail;
      SeparatorsOnly(tail, cur, has);
    } else {
      var c := t[0];
      assert s[0] == c && s[1..] == t[1..] + tail;
      assert |t| == 1 && tail != "" ==> s[1] == tail[0] && tail[0] in tail;
      if quote.Some? {
        if c == '\\' && |t| > 1 && (t[1] == quote.value || t[1] == '\\') {
          assert s[1] == t[1] && s[2..] == t[2..] + tail;
          SeparatorsBehind(t[2..], tail, quote, cur + [t[1]], has);
        } else if c == quote.value {
          SeparatorsBehind(t[1..], tail, None, cur, has);
        } else {
          SeparatorsBehind(t[1..], tail, quote, cur + [c], has);
        }
      } else if IsQuote(c) {
        SeparatorsBehind(t[1..], tail, Some(c), cur, true);
      } else if IsSeparator(c) {
        SeparatorsBehind(t[1..], tail, None, if has then "" else cur, false);
      } else {
        SeparatorsBehind(t[1..], tail, None, cur + [c], true);
      }
    }
  }

  lemma {:induction false} StartCut(s: string)
    ensures exists lead :: Blanks(lead) && s == lead + TrimStart(s)
  {
    if s != "" && IsBlank(s[0]) {
      StartCut(s[1..]);
      var lead :| Blanks(lead) && s[1..] == lead + TrimStart(s[1..]);
      assert s == [s[0]] + lead + TrimStart(s) && Blanks([s[0]] + lead);
    } else {
      assert s == "" + TrimStart(s) && Blanks("");
    }
  }

  lemma {:induction false} EndCut(s: string)
    ensures exists tail :: Blanks(tail) && s == TrimEnd(s) + tail
    decreases |s|
  {
    if s != "" && IsBlank(s[|s| - 1]) {
      var init, last := s[..|s| - 1], s[|s| - 1];
      EndCut(init);
      var tail :| Blanks(tail) && init == TrimEnd(init) + tail;
      assert s == TrimEnd(s) + (tail + [last]) && Blanks(tail + [last]);
    } else {
      assert s == TrimEnd(s) + "" && Blanks("");
    }
  }

  /** What trimming takes off the front and off the back of a line. */
  ghost predicate Trimmed(raw: string, lead: string, tail: string) {
    raw == lead + Trim(raw) + tail && Blanks(lead) && Blanks(tail)
  }

  lemma EveryLineIsTrimmed(raw: string)
    ensures exists lead, tail :: Trimmed(raw, lead, tail)
  {
    var start := TrimStart(raw);
    StartCut(raw);
    EndCut(start);
    var lead :| Blanks(lead) && raw == lead + start;
    var tail :| Blanks(tail) && start == TrimEnd(start) + tail;
    assert raw == lead + Trim(raw) + tail;
    assert Trimmed(raw, lead, tail);
  }

  lemma TrimLosesContent(raw: string, lead: string, tail: string)
    requires Trimmed(raw, lead, tail)
    ensures Total(Tokens(raw, None, "", false)) - Total(Arguments(raw))
         == Content(lead, None) + Content(tail, OpenAfter(Trim(raw), None))
  {
    var t := Trim(raw);
    assert raw == lead + (t + tail);
    BlanksBefore(lead, t + tail);
    BlanksBehind(t, tail, None);
    TotalIsContent(raw, None, "", false);
    TotalIsContent(t, None, "", false);
  }

  /** Only separators were taken off `t`, and none behind a quotation it leaves open. */
  predicate Harmless(t: string, lead: string, tail: string) {
    Separators(lead) && Separators(tail) && (tail != "" ==> OpenAfter(t, None) == None)
  }

  lemma BlanksLost(lead: string, tail: string, open: Option<char>)
    requires Blanks(lead) && Blanks(tail) && (open.Some? ==> IsQuote(open.value))
    requires !(Separators(lead) && Separators(tail) && (tail != "" ==> open == None))
    ensures Content(lead, None) + Content(tail, open) > 0
  {
    ContentOfBlanks(lead, None);
    ContentOfBlanks(tail, open);
  }

  lemma SomethingIsLost(raw: string, lead: string, tail: string)
    requires Trimmed(raw, lead, tail) && !Harmless(Trim(raw), lead, tail)
    ensures Total(Tokens(raw, None, "", false)) > Total(Arguments(raw))
  {
    TrimLosesContent(raw, lead, tail);
    OpenIsQuote(Trim(raw), None);
    BlanksLost(lead, tail, OpenAfter(Trim(raw), None));
  }

  lemma SeparatorsAround(t: string, lead: string, tail: string)
    requires Harmless(t, lead, tail)
    ensures Tokens(lead + (t + tail), None, "", false) == Tokens(t, None, "", false)
  {
    BlanksBefore(lead, t + tail);
    if tail == "" {
      assert t + tail == t;
    } else {
      SeparatorsBehind(t, tail, None, "", false);
    }
  }

  /** Trimming changes no argument exactly when it takes off separators only and, if it takes any off
      the back, no quotation is open there. */
  lemma TrimHarmlessIff(raw: string, lead: string, tail: string)
    requires Trimmed(raw, lead, tail)
    ensures Arguments(raw) == Tokens(raw, None, "", false) <==> Harmless(Trim(raw), lead, tail)
  {
    if Harmless(Trim(raw), lead, tail) {
      assert raw == lead + (Trim(raw) + tail);
      SeparatorsAround(Trim(raw), lead, tail);
    } else {
      SomethingIsLost(raw, lead, tail);
    }
  }

  /** Trimming comes before quoting is looked at: a blank that ends an unclosed quotation is lost. */
  lemma BlankInOpenQuoteIsLost(mark: char, blank: char)
    requires IsQuote(mark) && IsBlank(blank)
    ensures Tokens([mark, 'a', blank], None, "", false) == [['a', blank]]
    ensures Arguments([mark, 'a', blank]) == ["a"]
  {
    var s: string, t: string := [mark, 'a', blank], [mark, 'a'];
    assert !IsBlank(mark) && !IsBlank('a');
    assert s[..2] == t && TrimEnd(t) == t && TrimEnd(s) == t;
    assert t[1..] == ['a'] && t[1..][1..] == [];
    assert s[1..] == ['a', blank] && s[1..][1..] == [blank] && s[1..][1..][1..] == [];
    assert "" + ['a'] == "a" && "a" + [blank] == ['a', blank];
    assert Tokens([blank], Some(mark), "a", true) == Tokens([], Some(mark), "a" + [blank], true);
    assert Tokens(s[1..], Some(mark), "", true) == Tokens([blank], Some(mark), "a", true);
    assert Tokens(t[1..], Some(mark), "", true) == Tokens([], Some(mark), "a", true);
  }

  /** A blank that separates nothing belongs to an argument inside a line, and is lost at its ends. */
  lemma NoBreakSpaceIsLost(blank: char)
    requires IsBlank(blank) && !IsSeparator(blank)
    ensures Tokens([blank, 'a'], None, "", false) == [[blank, 'a']] && Arguments([blank, 'a']) == ["a"]
    ensures Tokens(['a', blank], None, "", false) == [['a', blank]] && Arguments(['a', blank]) == ["a"]
  {
    var a: string := ['a'];
    var front: string, back: string := [blank, 'a'], ['a', blank];
    assert !IsBlank('a') && front[1..] == a && back[..1] == a;
    assert TrimStart(a) == a && TrimEnd(a) == a;
    assert TrimStart(front) == a && TrimStart(back) == back && TrimEnd(back) == a;
    ReadBare(front, "", false, "");
    ReadBare(back, "", false, "");
    ReadBare(a, "", false, "");
    assert front + "" == front && back + "" == back && a + "" == a;
    assert "" + front == front && "" + back == back && "" + a == a;
  }
}
