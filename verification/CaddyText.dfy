/** What the lexer makes of any text, printed or not (caddyfile/lexer.go): blanks, comments, words, quoted strings,
carriage returns and line numbers. */
module CaddyText {
  import opened CaddyLexer
  import opened CaddyDispenser
  import opened CaddyRoundTrip

  // ----- comments -----

  /** In a comment that no word precedes, everything up to the line break is skipped. */
  lemma {:induction false} InComment(c: string, rest: string, line: nat)
    requires '\n' !in c
    ensures Scan(c + "\n" + rest, line, FRESH.(comment := true)) == Scan(rest, line + 1, FRESH)
    decreases |c|
  {
    var t := c + "\n" + rest;
    if c == "" {
      assert t == "\n" + rest && t[1..] == rest;
    } else {
      assert t[0] == c[0] && t[1..] == c[1..] + "\n" + rest;
      InComment(c[1..], rest, line);
    }
  }

  /** A comment reaches to the end of its line. */
  lemma {:induction false} CommentSkipsLine(c: string, rest: string, line: nat)
    requires '\n' !in c
    ensures Scan("#" + c + "\n" + rest, line, FRESH) == Scan(rest, line + 1, FRESH)
  {
    var t := "#" + c + "\n" + rest;
    assert t[0] == '#' && t[1..] == c + "\n" + rest;
    InComment(c, rest, line);
  }

  /** A comment on the last line reaches to the end of the text. */
  lemma {:induction false} CommentAtEnd(c: string, line: nat)
    requires '\n' !in c
    ensures Scan(c, line, FRESH.(comment := true)) == [] && Scan("#" + c, line, FRESH) == []
    decreases |c|
  {
    assert ("#" + c)[1..] == c;
    if c != "" {
      CommentAtEnd(c[1..], line);
    }
  }

  lemma {:induction false} CommentedWord(c: string, b: char, rest: string, line: nat, sc: Scanner)
    requires !sc.quoted && sc.comment && sc.val != "" && IsSpace(b) && b != '\r'
    requires forall i :: 0 <= i < |c| ==> !IsSpace(c[i])
    ensures Scan(c + [b] + rest, line, sc) == [Token(sc.start, sc.val)] + Scan(rest, line + if b == '\n' then 1 else 0, FRESH)
    decreases |c|
  {
    var t := c + [b] + rest;
    if c == "" {
      assert t == [b] + rest && t[1..] == rest;
    } else {
      assert t[0] == c[0] && t[1..] == c[1..] + [b] + rest;
      CommentedWord(c[1..], b, rest, line, sc);
    }
  }

  lemma {:induction false} WordRun(w: string, c: string, b: char, rest: string, line: nat, sc: Scanner)
    requires !sc.quoted && !sc.comment && sc.val != "" && IsSpace(b) && b != '\r'
    requires (forall i :: 0 <= i < |w| ==> PlainChar(w[i])) && forall i :: 0 <= i < |c| ==> !IsSpace(c[i])
    ensures Scan(w + "#" + c + [b] + rest, line, sc)
         == [Token(sc.start, sc.val + w)] + Scan(rest, line + if b == '\n' then 1 else 0, FRESH)
    decreases |w|
  {
    var t := w + "#" + c + [b] + rest;
    if w == "" {
      assert t[0] == '#' && t[1..] == c + [b] + rest && sc.val + w == sc.val;
      CommentedWord(c, b, rest, line, sc.(comment := true));
    } else {
      assert t[0] == w[0] && t[1..] == w[1..] + "#" + c + [b] + rest;
      WordRun(w[1..], c, b, rest, line, sc.(val := sc.val + [w[0]]));
      assert sc.val + [w[0]] + w[1..] == sc.val + w;
    }
  }

  /** A comment sign inside a word hides the rest of the word only. What follows the next blank is read again, on the
  same line too. */
  lemma {:induction false} CommentInWord(w: string, c: string, b: char, rest: string, line: nat)
    requires w != "" && w[0] != '"' && IsSpace(b) && b != '\r'
    requires (forall i :: 0 <= i < |w| ==> PlainChar(w[i])) && forall i :: 0 <= i < |c| ==> !IsSpace(c[i])
    ensures Scan(w + "#" + c + [b] + rest, line, FRESH) == [Token(line, w)] + Scan(rest, line + if b == '\n' then 1 else 0, FRESH)
  {
    var t := w + "#" + c + [b] + rest;
    assert t[0] == w[0] && t[1..] == w[1..] + "#" + c + [b] + rest;
    WordRun(w[1..], c, b, rest, line, FRESH.(start := line, val := "" + [w[0]]));
    assert "" + [w[0]] + w[1..] == w;
  }

  /** Such a comment does not end its line. */
  lemma {:induction false} CommentGoesOn(line: nat)
    ensures Scan("a#b c", line, FRESH) == [Token(line, "a"), Token(line, "c")]
  {
    CommentInWord("a", "b", ' ', "c", line);
    assert "a" + "#" + "b" + [' '] + "c" == "a#b c";
    PlainComesBack("c", "", line);
    assert "c" + "" == "c";
  }

  // ----- quoted strings that are not closed -----

  lemma {:induction false} UnclosedRun(s: string, line: nat, sc: Scanner)
    requires sc.quoted && BackslashesPair(s, sc.escaped)
    ensures Scan(Escaped(s), line, sc) == if Held(sc) + s == "" then [] else [Token(sc.start, Held(sc) + s)]
    decreases |s|
  {
    var t := Escaped(s);
    if s == "" {
      assert Held(sc) + s == sc.val;
    } else {
      var tail, c := Escaped(s[1..]), s[0];
      if c == '"' {
        assert t[0] == '\\' && t[1..] == "\"" + tail && ("\"" + tail)[1..] == tail;
        UnclosedRun(s[1..], line, sc.(val := sc.val + [c], escaped := false));
        assert sc.val + [c] + s[1..] == sc.val + s;
      } else {
        assert t[0] == c && t[1..] == tail;
        var e := Feed(c, line, sc);
        UnclosedRun(s[1..], e.line, e.sc);
        assert Held(e.sc) == Held(sc) + [c];
        assert Held(sc) + [c] + s[1..] == Held(sc) + s;
      }
    }
  }

  /** A quoted string that is not closed takes the rest of the text; an empty one is no token. */
  lemma {:induction false} UnclosedQuote(s: string, line: nat)
    requires BackslashesPair(s, false)
    ensures Scan("\"" + Escaped(s), line, FRESH) == if s == "" then [] else [Token(line, s)]
  {
    assert ("\"" + Escaped(s))[1..] == Escaped(s);
    UnclosedRun(s, line, FRESH.(start := line, quoted := true));
    assert "" + s == s;
  }

  // ----- carriage returns -----

  /** The scanner in front of what follows s. */
  function Reached(s: string, line: nat, sc: Scanner): Scanner
    decreases |s|
  {
    if s == "" then sc
    else
      var e := Feed(s[0], line, sc);
      Reached(s[1..], e.line, if e.token then FRESH else e.sc)
  }

  /** Outside quotes, carriage returns change nothing. */
  lemma {:induction false} ReturnsIgnored(a: string, b: string, line: nat, sc: Scanner)
    requires !Reached(a, line, sc).quoted
    ensures Scan(a + "\r" + b, line, sc) == Scan(a + b, line, sc)
    decreases |a|
  {
    if a == "" {
      assert a + "\r" + b == "\r" + b && ("\r" + b)[1..] == b && a + b == b;
    } else {
      assert (a + "\r" + b)[0] == a[0] && (a + "\r" + b)[1..] == a[1..] + "\r" + b;
      assert (a + b)[0] == a[0] && (a + b)[1..] == a[1..] + b;
      var e := Feed(a[0], line, sc);
      ReturnsIgnored(a[1..], b, e.line, if e.token then FRESH else e.sc);
    }
  }

  // ----- line numbers -----

  lemma {:induction false} BreaksConcat(a: string, b: string)
    ensures Breaks(a + b) == Breaks(a) + Breaks(b)
    decreases |a|
  {
    if a == "" {
      assert a + b == b;
    } else {
      assert (a + b)[1..] == a[1..] + b;
      BreaksConcat(a[1..], b);
    }
  }

  lemma {:induction false} BreaksNext(s: string, q: nat)
    requires s != "" && q < |s|
    ensures Breaks(s[..q + 1]) == Breaks([s[0]]) + Breaks(s[1..][..q]) && s[1..][q..] == s[q + 1..]
  {
    assert s[..q + 1] == [s[0]] + s[1..][..q];
    BreaksConcat([s[0]], s[1..][..q]);
  }

  /** A token that has begun keeps its line. */
  lemma {:induction false} LineKept(s: string, line: nat, sc: Scanner)
    requires sc.quoted || sc.val != ""
    ensures Scan(s, line, sc) != [] ==> Scan(s, line, sc)[0].line == sc.start
    decreases |s|
  {
    if s != "" {
      var e := Feed(s[0], line, sc);
      if !e.token {
        LineKept(s[1..], e.line, e.sc);
      }
    }
  }

  lemma {:induction false} FeedLine(c: char, line: nat, sc: Scanner)
    ensures Feed(c, line, sc).line == line + Breaks([c])
  {
    assert [c][1..] == "";
  }

  /** Behind the first token the lexer starts afresh, on the line it has come to. */
  lemma {:induction false} RestOfToken(s: string, line: nat, sc: Scanner) returns (q: nat)
    requires (sc.quoted || sc.val != "") && Scan(s, line, sc) != []
    ensures q <= |s| && Scan(s, line, sc)[1..] == Scan(s[q..], line + Breaks(s[..q]), FRESH)
    decreases |s|
  {
    if s == "" {
      q := 0;
    } else {
      var e := Feed(s[0], line, sc);
      FeedLine(s[0], line, sc);
      if e.token {
        q := 1;
        assert s[..1] == [s[0]];
      } else {
        var r := RestOfToken(s[1..], e.line, e.sc);
        BreaksNext(s, r);
        q := r + 1;
      }
    }
  }

  /** Blanks and comments lead to the first character of the first token. */
  lemma {:induction false} FirstStart(s: string, line: nat, comment: bool) returns (p: nat)
    requires Scan(s, line, FRESH.(comment := comment)) != []
    ensures p < |s| && PlainChar(s[p]) && Scan(s, line, FRESH.(comment := comment)) == Scan(s[p..], line + Breaks(s[..p]), FRESH)
    decreases |s|
  {
    var sc := FRESH.(comment := comment);
    var e := Feed(s[0], line, sc);
    FeedLine(s[0], line, sc);
    if PlainChar(s[0]) && !comment {
      p := 0;
      assert s[0..] == s && s[..0] == "";
    } else {
      var r := FirstStart(s[1..], e.line, e.sc.comment);
      BreaksNext(s, r);
      p := r + 1;
    }
  }

  /** The k-th token of a text starts at p: there the lexer starts afresh, and the token has the number of that line. */
  ghost predicate StartsAt(s: string, line: nat, k: nat, p: nat) {
    && p < |s| && PlainChar(s[p]) && k < |Scan(s, line, FRESH)|
    && Scan(s, line, FRESH)[k..] == Scan(s[p..], line + Breaks(s[..p]), FRESH)
    && Scan(s, line, FRESH)[k].line == line + Breaks(s[..p])
  }

  lemma {:induction false} FirstTokenStarts(s: string, line: nat) returns (p: nat)
    requires Scan(s, line, FRESH) != []
    ensures StartsAt(s, line, 0, p)
  {
    p := FirstStart(s, line, false);
    var n := line + Breaks(s[..p]);
    var e := Feed(s[p], n, FRESH);
    assert s[p..][0] == s[p] && e.sc.start == n && (e.sc.quoted || e.sc.val != "");
    LineKept(s[p..][1..], e.line, e.sc);
  }

  lemma {:induction false} RestOfTokens(s: string, line: nat, p: nat) returns (q: nat)
    requires StartsAt(s, line, 0, p)
    ensures p < q <= |s| && Scan(s, line, FRESH)[1..] == Scan(s[q..], line + Breaks(s[..q]), FRESH)
  {
    var n := line + Breaks(s[..p]);
    var t := s[p..];
    var e := Feed(t[0], n, FRESH);
    FeedLine(t[0], n, FRESH);
    var r := RestOfToken(t[1..], e.line, e.sc);
    q := p + 1 + r;
    assert t[1..][r..] == s[q..];
    assert s[..q] == s[..p] + ([t[0]] + t[1..][..r]);
    BreaksConcat(s[..p], [t[0]] + t[1..][..r]);
    BreaksConcat([t[0]], t[1..][..r]);
  }

  /** Every token has the number of the line on which its first character stands. */
  lemma {:induction false} TokenLines(s: string, line: nat, k: nat) returns (p: nat)
    requires k < |Scan(s, line, FRESH)|
    ensures StartsAt(s, line, k, p)
    decreases k
  {
    p := FirstTokenStarts(s, line);
    if k > 0 {
      var q := RestOfTokens(s, line, p);
      var rest, n := s[q..], line + Breaks(s[..q]);
      var r := TokenLines(rest, n, k - 1);
      p := q + r;
      assert rest[r..] == s[p..] && s[..p] == s[..q] + rest[..r];
      BreaksConcat(s[..q], rest[..r]);
      assert Scan(s, line, FRESH)[1..][k - 1..] == Scan(s, line, FRESH)[k..];
    }
  }

  /** A byte order mark counts only in front of the text, and then it is no part of it. Lines are counted from one. */
  lemma {:induction false} MarkDropped(s: string)
    ensures TokensOf("\U{feff}" + s) == Scan(s, 1, FRESH)
    ensures s == "" || s[0] != '\U{feff}' ==> TokensOf(s) == Scan(s, 1, FRESH)
  {
    assert ("\U{feff}" + s)[1..] == s;
  }

  // ----- regrouping any tokens -----

  /** The texts of the tokens of a line or a block, braces included. */
  function FlatLine(vs: List<Value>): seq<string> {
    match vs
    case Nil => []
    case Cons(Text(s), rest) => [s] + FlatLine(rest)
    case Cons(Block(lines), rest) => ["{"] + FlatBlock(lines) + FlatLine(rest)
  }

  function FlatBlock(ls: List<List<Value>>): seq<string> {
    match ls
    case Nil => ["}"]
    case Cons(l, rest) => FlatLine(l) + FlatBlock(rest)
  }

  /** The texts of the tokens behind c, up to token e. */
  function Texts(ts: seq<Token>, c: nat, e: nat): seq<string>
    requires c <= e < |ts|
  {
    if c == e then [] else Texts(ts, c, e - 1) + [ts[e].text]
  }

  lemma {:induction false} TextsConcat(ts: seq<Token>, c: nat, d: nat, e: nat)
    requires c <= d <= e < |ts|
    ensures Texts(ts, c, e) == Texts(ts, c, d) + Texts(ts, d, e)
    decreases e
  {
    if d < e {
      TextsConcat(ts, c, d, e - 1);
    }
  }

  function Closing(n: nat): seq<string> {
    seq(n, _ => "}")
  }

  /** The tokens behind c and up to e, with the closing braces that are missing at the end of the text. */
  ghost predicate Regrouped(ts: seq<Token>, c: nat, e: nat, flat: seq<string>, missing: nat) {
    c <= e < |ts| && flat == Texts(ts, c, e) + Closing(missing) && (missing > 0 ==> e == |ts| - 1)
  }

  /** Two stretches of tokens, one behind the other. Behind a missing brace there is nothing. */
  lemma {:induction false} RegroupedConcat(ts: seq<Token>, c: nat, d: nat, e: nat, a: seq<string>, m: nat, b: seq<string>, n: nat)
    requires Regrouped(ts, c, d, a, m) && Regrouped(ts, d, e, b, n)
    ensures Regrouped(ts, c, e, a + b, m + n)
  {
    TextsConcat(ts, c, d, e);
    if m > 0 {
      assert Texts(ts, d, e) == [] && Closing(m) + Closing(n) == Closing(m + n);
      assert a + b == Texts(ts, c, e) + Closing(m + n);
    } else {
      assert Closing(0) == [];
      assert a + b == Texts(ts, c, e) + Closing(m + n);
    }
  }

  lemma {:induction false} OneRegrouped(ts: seq<Token>, c: nat)
    requires c + 1 < |ts|
    ensures Regrouped(ts, c, c + 1, [ts[c + 1].text], 0)
  {
    assert Texts(ts, c, c) == [] && [] + [ts[c + 1].text] == [ts[c + 1].text];
    assert [ts[c + 1].text] + [] == [ts[c + 1].text];
  }

  /** Whatever the tokens are, grouping a line keeps all of them, in order, adds only the closing braces that are missing
  at the end of the text, and stops where the line does. */
  lemma {:induction false} LineKeepsTokens(ts: seq<Token>, c: nat) returns (missing: nat)
    requires c < |ts|
    ensures Regrouped(ts, c, LineRest(ts, c).cursor, FlatLine(LineRest(ts, c).value), missing)
    ensures !SameLine(ts, LineRest(ts, c).cursor)
    decreases |ts| - c, 0
  {
    if !SameLine(ts, c) {
      missing := 0;
    } else if ts[c + 1].text == "{" {
      var b := BlockFrom(ts, c + 1);
      var m := BlockKeepsTokens(ts, c + 1);
      OneRegrouped(ts, c);
      RegroupedConcat(ts, c, c + 1, b.cursor, ["{"], 0, FlatBlock(b.value), m);
      var n := LineKeepsTokens(ts, b.cursor);
      RegroupedConcat(ts, c, b.cursor, LineRest(ts, b.cursor).cursor, ["{"] + FlatBlock(b.value), m, FlatLine(LineRest(ts, b.cursor).value), n);
      missing := m + n;
    } else {
      var n := LineKeepsTokens(ts, c + 1);
      OneRegrouped(ts, c);
      RegroupedConcat(ts, c, c + 1, LineRest(ts, c + 1).cursor, [ts[c + 1].text], 0, FlatLine(LineRest(ts, c + 1).value), n);
      missing := n;
    }
  }

  /** The same for a block. */
  lemma {:induction false} BlockKeepsTokens(ts: seq<Token>, c: nat) returns (missing: nat)
    requires c < |ts|
    ensures Regrouped(ts, c, BlockFrom(ts, c).cursor, FlatBlock(BlockFrom(ts, c).value), missing)
    decreases |ts| - c, 1
  {
    if c + 1 >= |ts| {
      missing := 1;
      assert [] + Closing(1) == ["}"];
    } else if ts[c + 1].text == "}" {
      missing := 0;
      OneRegrouped(ts, c);
    } else {
      var args, first := LineRest(ts, c + 1), ts[c + 1].text;
      var m := LineKeepsTokens(ts, c + 1);
      OneRegrouped(ts, c);
      RegroupedConcat(ts, c, c + 1, args.cursor, [first], 0, FlatLine(args.value), m);
      assert FlatLine(Cons(Text(first), args.value)) == [first] + FlatLine(args.value);
      var rest := BlockFrom(ts, args.cursor);
      var n := BlockKeepsTokens(ts, args.cursor);
      RegroupedConcat(ts, c, args.cursor, rest.cursor, [first] + FlatLine(args.value), m, FlatBlock(rest.value), n);
      missing := m + n;
    }
  }

  /** Where the file changes behind a token, its line ends, whatever the line numbers are. */
  lemma {:induction false} LineEndsWithFile(ts: seq<Token>, c: nat)
    requires c + 1 < |ts| && ts[c].file != ts[c + 1].file
    ensures LineRest(ts, c) == Parsed(Nil, c)
  {
  }
}
