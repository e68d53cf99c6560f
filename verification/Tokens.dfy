/** What the compiler reads: the tokenizer's array, ended by an end-of-source token. */
module Tokens {
  datatype Kind = Symbol | String | Number | HexString | BinString | Operator | Comparison | Logical | NotSign
                | ConcatSign | LParen | RParen | Comma | Semicolon | Eoc | Eof

  /** upper is the symbol in upper case; the flags are the tokenizer's. */
  datatype Token = Token(kind: Kind, text: string, upper: string, constant: bool, compound: bool,
                         doubled: bool, continuation: bool, line: nat, col: nat)

  type Source = ts: seq<Token> | |ts| >= 1 && ts[|ts| - 1].kind == Eof
    witness [Token(Eof, "", "", false, false, false, false, 0, 0)]

  /** Past the array there is nothing, which every test treats like the end of the source. */
  function Tok(ts: Source, i: int): Token
  {
    if 0 <= i < |ts| then ts[i] else ts[|ts| - 1]
  }

  predicate Is(ts: Source, i: int, k: Kind, ch: char)
  {
    Tok(ts, i).kind == k && Tok(ts, i).text != "" && Tok(ts, i).text[0] == ch
  }

  predicate IsKeyword(ts: Source, i: int, kw: string)
  {
    Tok(ts, i).kind == Symbol && Tok(ts, i).upper == kw
  }

  /** ';' ends a clause; ':' comes in the same kind of token and does not. */
  predicate IsSemi(ts: Source, i: int) { Is(ts, i, Semicolon, ';') }

  predicate EndsClause(ts: Source, i: int)
  {
    Tok(ts, i).kind == Eoc || Tok(ts, i).kind == Eof || IsSemi(ts, i)
  }

  predicate IsContinuation(ts: Source, i: int)
  {
    Tok(ts, i).kind == Comma && Tok(ts, i).continuation
  }

  /** b starts in the very column a ends in; quotes and an x or b suffix are not in the text. */
  predicate Adjacent(a: Token, b: Token)
  {
    a.line == b.line
    && a.col + |a.text| + (if a.kind == String then 2 else if a.kind == HexString || a.kind == BinString then 3 else 0)
       == b.col
  }

  lemma KeywordNext(ts: Source, i: nat, w: string)
    requires IsKeyword(ts, i, w)
    ensures i + 1 < |ts| && ts[i].kind == Symbol
  {
  }

  /** The tokens s are in ts from i on. */
  ghost predicate Stands(ts: seq<Token>, i: nat, s: seq<Token>)
  {
    i + |s| <= |ts| && ts[i..i + |s|] == s
  }

  lemma StandsAt(ts: seq<Token>, i: nat, s: seq<Token>, j: nat)
    requires Stands(ts, i, s) && j < |s|
    ensures i + |s| <= |ts| && ts[i + j] == s[j]
  {
    assert ts[i..i + |s|][j] == s[j];
  }

  lemma StandsSplit(ts: seq<Token>, i: nat, s: seq<Token>, t: seq<Token>)
    ensures Stands(ts, i, s + t) <==> Stands(ts, i, s) && Stands(ts, i + |s|, t)
  {
    var n := |s| + |t|;
    if Stands(ts, i, s + t) {
      assert ts[i..i + |s|] == ts[i..i + n][..|s|] == s;
      assert ts[i + |s|..i + n] == ts[i..i + n][|s|..] == t;
    }
    if Stands(ts, i, s) && Stands(ts, i + |s|, t) {
      assert ts[i..i + n] == ts[i..i + |s|] + ts[i + |s|..i + n];
    }
  }
}
