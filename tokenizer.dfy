/** The query tokenizer (RqTokenizer.Tokenize): the query text is cut at
    every single space, keeping the empty pieces that consecutive, leading or
    trailing spaces produce, and a piece whose lower-case form is a command
    word is replaced by that lower-case form. */
module Tokenizer {

  /** ASCII lower-casing of one character; every other character is kept. */
  function LowerChar(c: char): char {
    if 'A' <= c <= 'Z' then (c as int - 'A' as int + 'a' as int) as char else c
  }

  function Lower(s: string): (r: string)
    ensures |r| == |s|
  {
    seq(|s|, i requires 0 <= i < |s| => LowerChar(s[i]))
  }

  /** The pieces of `s` between single spaces, as a split on the separator
      " " yields them: `n` spaces give `n + 1` pieces, some of them empty. */
  function Split(s: string): (pieces: seq<string>)
    ensures |pieces| >= 1
  {
    if |s| == 0 then [""]
    else
      var rest := Split(s[1..]);
      if s[0] == ' ' then [""] + rest
      else [[s[0]] + rest[0]] + rest[1..]
  }

  /** The pieces written out with one space between each two of them. */
  function Join(ts: seq<string>): string {
    if |ts| == 0 then ""
    else if |ts| == 1 then ts[0]
    else ts[0] + " " + Join(ts[1..])
  }

  /** The form a piece takes in the output. */
  function Normalize(piece: string, commands: set<string>): string {
    if Lower(piece) in commands then Lower(piece) else piece
  }

  function Tokenize(sql: string, commands: set<string>): (tokens: seq<string>)
    ensures |tokens| == |Split(sql)|
  {
    var pieces := Split(sql);
    seq(|pieces|, i requires 0 <= i < |pieces| => Normalize(pieces[i], commands))
  }

  predicate SpaceFree(s: string) {
    forall i :: 0 <= i < |s| ==> s[i] != ' '
  }

  /** The number of tokens is one more than the number of spaces. */
  lemma {:induction false} SplitCount(s: string)
    ensures |Split(s)| == multiset(s)[' '] + 1
  {
    if |s| > 0 {
      SplitCount(s[1..]);
      assert s == [s[0]] + s[1..];
      assert multiset(s) == multiset([s[0]]) + multiset(s[1..]);
    }
  }

  /** No piece contains a space. */
  lemma {:induction false} SplitSpaceFree(s: string)
    ensures forall i :: 0 <= i < |Split(s)| ==> SpaceFree(Split(s)[i])
  {
    if |s| > 0 {
      SplitSpaceFree(s[1..]);
      var rest := Split(s[1..]);
      if s[0] != ' ' {
        assert SpaceFree(rest[0]);
        var head := [s[0]] + rest[0];
        assert forall k :: 1 <= k < |head| ==> head[k] == rest[0][k - 1];
        assert SpaceFree(head);
      }
    }
  }

  /** Putting the spaces back gives the text that was split. */
  lemma {:induction false} JoinSplit(s: string)
    ensures Join(Split(s)) == s
  {
    if |s| > 0 {
      JoinSplit(s[1..]);
      var rest := Split(s[1..]);
      if s[0] == ' ' {
        assert ([""] + rest)[1..] == rest;
        assert s == " " + s[1..];
      } else {
        var ts := [[s[0]] + rest[0]] + rest[1..];
        if |rest| == 1 {
          assert s == [s[0]] + rest[0];
        } else {
          assert ts[1..] == rest[1..];
          assert Join(rest) == rest[0] + " " + Join(rest[1..]);
          assert s == [s[0]] + s[1..];
        }
      }
    }
  }

  /** Splitting text that starts with a space-free word glues that word to
      the first piece of the remainder. */
  lemma {:induction false} SplitWordPrefix(w: string, u: string)
    requires SpaceFree(w)
    ensures Split(w + u) == [w + Split(u)[0]] + Split(u)[1..]
  {
    if |w| > 0 {
      assert SpaceFree(w[1..]) by {
        assert forall k :: 0 <= k < |w| - 1 ==> w[1..][k] == w[k + 1];
      }
      SplitWordPrefix(w[1..], u);
      var rest := Split(w[1..] + u);
      assert (w + u)[1..] == w[1..] + u;
      assert (w + u)[0] == w[0] && w[0] != ' ';
      assert Split(w + u) == [[w[0]] + rest[0]] + rest[1..];
      assert rest[0] == w[1..] + Split(u)[0];
      assert rest[1..] == Split(u)[1..];
      assert [w[0]] + (w[1..] + Split(u)[0]) == w + Split(u)[0];
    } else {
      assert w + u == u && w + Split(u)[0] == Split(u)[0];
      assert [Split(u)[0]] + Split(u)[1..] == Split(u);
    }
  }

  /** Splitting space-free tokens joined by spaces gives the tokens back. */
  lemma {:induction false} SplitJoin(ts: seq<string>)
    requires |ts| >= 1
    requires forall i :: 0 <= i < |ts| ==> SpaceFree(ts[i])
    ensures Split(Join(ts)) == ts
  {
    if |ts| == 1 {
      SplitWordPrefix(ts[0], "");
      assert ts[0] + "" == ts[0];
    } else {
      var u := " " + Join(ts[1..]);
      SplitJoin(ts[1..]);
      assert u[1..] == Join(ts[1..]);
      assert Split(u) == [""] + ts[1..];
      assert ts[0] + " " + Join(ts[1..]) == ts[0] + u;
      SplitWordPrefix(ts[0], u);
      assert ts[0] + "" == ts[0];
      assert [ts[0]] + ts[1..] == ts;
    }
  }

  lemma LowerSpaceFree(s: string)
    requires SpaceFree(s)
    ensures SpaceFree(Lower(s))
  {
  }

  lemma LowerIdempotent(s: string)
    ensures Lower(Lower(s)) == Lower(s)
  {
  }

  /** No token contains a space. */
  lemma TokensSpaceFree(sql: string, commands: set<string>)
    ensures forall i :: 0 <= i < |Tokenize(sql, commands)| ==> SpaceFree(Tokenize(sql, commands)[i])
  {
    var pieces := Split(sql);
    SplitSpaceFree(sql);
    forall i | 0 <= i < |pieces|
      ensures SpaceFree(Tokenize(sql, commands)[i])
    {
      LowerSpaceFree(pieces[i]);
    }
  }

  /** The number of tokens is one more than the number of spaces in the
      query, and each token is its piece, lower-cased exactly when the
      lower-case form is a command word. */
  lemma TokenizeCases(sql: string, commands: set<string>)
    ensures |Tokenize(sql, commands)| == multiset(sql)[' '] + 1
    ensures forall i :: 0 <= i < |Split(sql)| ==>
              var p, t := Split(sql)[i], Tokenize(sql, commands)[i];
              && (Lower(p) in commands ==> t == Lower(p))
              && (Lower(p) !in commands ==> t == p)
  {
    SplitCount(sql);
  }

  /** The empty query is one empty token. */
  lemma TokenizeEmpty(commands: set<string>)
    ensures Tokenize("", commands) == [""]
  {
  }

  /** Tokenizing the space-joined tokens again yields the same tokens. */
  lemma TokenizeIdempotent(sql: string, commands: set<string>)
    ensures Tokenize(Join(Tokenize(sql, commands)), commands) == Tokenize(sql, commands)
  {
    var ts := Tokenize(sql, commands);
    TokensSpaceFree(sql, commands);
    SplitJoin(ts);
    forall i | 0 <= i < |ts|
      ensures Normalize(ts[i], commands) == ts[i]
    {
      LowerIdempotent(Split(sql)[i]);
    }
  }

  /** Lower-casing distributes over joining. */
  lemma {:induction false} LowerJoin(ts: seq<string>)
    ensures Lower(Join(ts)) == Join(seq(|ts|, i requires 0 <= i < |ts| => Lower(ts[i])))
  {
    var ls := seq(|ts|, i requires 0 <= i < |ts| => Lower(ts[i]));
    if |ts| > 1 {
      LowerJoin(ts[1..]);
      assert ls[1..] == seq(|ts| - 1, i requires 0 <= i < |ts| - 1 => Lower(ts[1..][i]));
      assert Lower(ts[0] + " " + Join(ts[1..])) == Lower(ts[0]) + " " + Lower(Join(ts[1..]));
    }
  }

  /** The joined tokens differ from the query only in letter case: they
      lower-case to the same text. */
  lemma JoinTokensSameLetters(sql: string, commands: set<string>)
    ensures |Join(Tokenize(sql, commands))| == |sql|
    ensures Lower(Join(Tokenize(sql, commands))) == Lower(sql)
  {
    var pieces := Split(sql);
    var ts := Tokenize(sql, commands);
    JoinSplit(sql);
    LowerJoin(ts);
    LowerJoin(pieces);
    forall i | 0 <= i < |ts|
      ensures Lower(ts[i]) == Lower(pieces[i])
    {
      LowerIdempotent(pieces[i]);
    }
    assert seq(|ts|, i requires 0 <= i < |ts| => Lower(ts[i]))
        == seq(|pieces|, i requires 0 <= i < |pieces| => Lower(pieces[i]));
  }

  /** With no piece a command word, the joined tokens are the query itself. */
  lemma JoinTokensNoCommand(sql: string, commands: set<string>)
    requires forall i :: 0 <= i < |Split(sql)| ==> Lower(Split(sql)[i]) !in commands
    ensures Join(Tokenize(sql, commands)) == sql
  {
    JoinSplit(sql);
    assert Tokenize(sql, commands) == Split(sql);
  }
}
