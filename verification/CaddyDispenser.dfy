/** Regrouping tokens into lines and blocks (caddyfile/dispenser.go, and constructLine and
constructBlock of caddyfile/json.go). */
module CaddyDispenser {
  import opened CaddyLexer

  datatype List<T> = Nil | Cons(head: T, tail: List<T>)

  /** An element of a line: a string, or a nested block of lines. */
  datatype Value = Text(s: string) | Block(lines: List<List<Value>>)

  /** Line breaks inside a token. */
  function Breaks(s: string): nat {
    if s == "" then 0 else (if s[0] == '\n' then 1 else 0) + Breaks(s[1..])
  }

  /** The token behind c is on the line of the same file on which token c ends. */
  predicate SameLine(ts: seq<Token>, c: nat) {
    c + 1 < |ts| && ts[c].file == ts[c + 1].file && ts[c].line + Breaks(ts[c].text) == ts[c + 1].line
  }

  datatype Parsed<T> = Parsed(value: T, cursor: nat)

  /** The elements behind the token at the cursor, up to the end of its line. */
  function LineRest(ts: seq<Token>, c: nat): (r: Parsed<List<Value>>)
    requires c < |ts|
    ensures c <= r.cursor < |ts|
    decreases |ts| - c, 0
  {
    if !SameLine(ts, c) then Parsed(Nil, c)
    else if ts[c + 1].text == "{" then
      var b := BlockFrom(ts, c + 1);
      var rest := LineRest(ts, b.cursor);
      Parsed(Cons(Block(b.value), rest.value), rest.cursor)
    else
      var rest := LineRest(ts, c + 1);
      Parsed(Cons(Text(ts[c + 1].text), rest.value), rest.cursor)
  }

  /** The lines of the block opened by the token at the cursor. */
  function BlockFrom(ts: seq<Token>, c: nat): (r: Parsed<List<List<Value>>>)
    requires c < |ts|
    ensures c <= r.cursor < |ts|
    decreases |ts| - c, 1
  {
    if c + 1 >= |ts| then Parsed(Nil, c)
    else if ts[c + 1].text == "}" then Parsed(Nil, c + 1)
    else
      var args := LineRest(ts, c + 1);
      var rest := BlockFrom(ts, args.cursor);
      Parsed(Cons(Cons(Text(ts[c + 1].text), args.value), rest.value), rest.cursor)
  }

  function Append<T>(a: List<T>, b: List<T>): List<T> {
    match a
    case Nil => b
    case Cons(h, t) => Cons(h, Append(t, b))
  }

  lemma AppendNil<T>(a: List<T>)
    ensures Append(a, Nil) == a
  {
  }

  lemma AppendOne<T>(a: List<T>, x: T, b: List<T>)
    ensures Append(Append(a, Cons(x, Nil)), b) == Append(a, Cons(x, b))
  {
  }

  class Dispenser {
    const tokens: seq<Token>
    var cursor: int

    constructor (tokens: seq<Token>)
      ensures this.tokens == tokens && cursor == -1
    {
      this.tokens, cursor := tokens, -1;
    }

    function Val(): string
      reads this
    {
      if cursor < 0 || cursor >= |tokens| then "" else tokens[cursor].text
    }

    method Next() returns (ok: bool)
      modifies this
      ensures ok == (old(cursor) < |tokens| - 1)
      ensures cursor == old(cursor) + if ok then 1 else 0
    {
      ok := cursor < |tokens| - 1;
      if ok {
        cursor := cursor + 1;
      }
    }

    /** Loads the next token if it is on the same line of the same file. */
    method NextArg() returns (ok: bool)
      modifies this
      ensures old(cursor) < 0 ==> ok
      ensures old(cursor) >= 0 ==> ok == SameLine(tokens, old(cursor))
      ensures cursor == old(cursor) + if ok then 1 else 0
    {
      if cursor < 0 {
        cursor := cursor + 1;
        return true;
      }
      if cursor >= |tokens| {
        return false;
      }
      if cursor < |tokens| - 1 && tokens[cursor].file == tokens[cursor + 1].file
         && tokens[cursor].line + Breaks(tokens[cursor].text) == tokens[cursor + 1].line {
        cursor := cursor + 1;
        return true;
      }
      return false;
    }

    method ConstructLine() returns (args: List<Value>)
      requires 0 <= cursor < |tokens|
      modifies this
      ensures old(cursor) <= cursor < |tokens|
      ensures args == Cons(Text(tokens[old(cursor)].text), LineRest(tokens, old(cursor)).value)
      ensures cursor == LineRest(tokens, old(cursor)).cursor
      decreases |tokens| - cursor, 0
    {
      args := Cons(Text(Val()), Nil);
      ghost var whole := LineRest(tokens, cursor);
      var more := NextArg();
      AppendNil(Cons(Text(tokens[old(cursor)].text), whole.value));
      while more
        invariant old(cursor) <= cursor < |tokens|
        invariant more ==> old(cursor) < cursor && SameLine(tokens, cursor - 1)
        invariant !more ==> whole.cursor == cursor && args == Cons(Text(tokens[old(cursor)].text), whole.value)
        invariant more ==>
                    var rest := LineRest(tokens, cursor - 1);
                    Append(args, rest.value) == Cons(Text(tokens[old(cursor)].text), whole.value) && rest.cursor == whole.cursor
        decreases |tokens| - cursor, more
      {
        var v;
        if Val() == "{" {
          var lines := ConstructBlock();
          v := Block(lines);
        } else {
          v := Text(Val());
        }
        ghost var rest := LineRest(tokens, cursor);
        AppendOne(args, v, rest.value);
        args := Append(args, Cons(v, Nil));
        AppendNil(args);
        more := NextArg();
      }
    }

    method ConstructBlock() returns (lines: List<List<Value>>)
      requires 0 <= cursor < |tokens|
      modifies this
      ensures old(cursor) <= cursor < |tokens|
      ensures lines == BlockFrom(tokens, old(cursor)).value && cursor == BlockFrom(tokens, old(cursor)).cursor
      decreases |tokens| - cursor, 1
    {
      lines := Nil;
      ghost var whole := BlockFrom(tokens, cursor);
      var more := Next();
      while more && Val() != "}"
        invariant old(cursor) <= cursor < |tokens|
        invariant more ==> old(cursor) < cursor
        invariant !more ==> whole.cursor == cursor && lines == whole.value
        invariant more ==>
                    var rest := BlockFrom(tokens, cursor - 1);
                    Append(lines, rest.value) == whole.value && rest.cursor == whole.cursor
        decreases |tokens| - cursor, more
      {
        var args := ConstructLine();
        ghost var rest := BlockFrom(tokens, cursor);
        AppendOne(lines, args, rest.value);
        lines := Append(lines, Cons(args, Nil));
        AppendNil(lines);
        more := Next();
      }
      AppendNil(lines);
    }
  }
}
