/** Which strings are derivation paths, and what they stand for. */
module HdPaths {
  import opened Basics
  import opened HdKeys

  /** The parts of a string between slashes. */
  function Pieces(s: string): (r: seq<string>)
    ensures r != []
  {
    if s == [] then [[]]
    else
      var rest := Pieces(s[1..]);
      if s[0] == '/' then [[]] + rest else [[s[0]] + rest[0]] + rest[1..]
  }

  predicate Marked(piece: string) {
    piece != [] && piece[|piece| - 1] == '\''
  }

  /** A piece without its mark. */
  function Numeral(piece: string): string {
    if Marked(piece) then piece[..|piece| - 1] else piece
  }

  /** A number below 2^31, with or without the mark of a hardened step; `n` comes before its digits. */
  predicate PieceOk(n: nat, piece: string) {
    Digits(Numeral(piece)) && Value(n, Numeral(piece)) < 0x8000_0000
  }

  function IndexOf(n: nat, piece: string): nat
    requires PieceOk(n, piece)
  {
    Value(n, Numeral(piece)) + if Marked(piece) then 0x8000_0000 else 0
  }

  /** All pieces but the first must have digits. */
  predicate RestOk(pieces: seq<string>) {
    forall i :: 0 <= i < |pieces| ==> Numeral(pieces[i]) != [] && PieceOk(0, pieces[i])
  }

  function Indices(pieces: seq<string>): seq<nat>
    requires RestOk(pieces)
  {
    seq(|pieces|, i requires 0 <= i < |pieces| => IndexOf(0, pieces[i]))
  }

  /** What a list of pieces means, with `n` read before the first. */
  function Meant(n: nat, pieces: seq<string>): Option<seq<nat>>
    requires pieces != []
  {
    if PieceOk(n, pieces[0]) && RestOk(pieces[1..]) then Some([IndexOf(n, pieces[0])] + Indices(pieces[1..])) else None
  }

  /** A piece that starts with a digit, in front of the others. */
  lemma MeantSplit(n: nat, first: string, rest: seq<string>)
    requires rest != [] && PieceOk(n, first)
    ensures
      var r := Meant(0, rest);
      Meant(n, [first] + rest) ==
        if Numeral(rest[0]) != [] && r.Some? then Some([IndexOf(n, first)] + r.value) else None
  {
    var all := [first] + rest;
    assert all[1..] == rest;
    assert RestOk(rest) <==> Numeral(rest[0]) != [] && PieceOk(0, rest[0]) && RestOk(rest[1..]) by {
      RestSplit(rest);
    }
    if RestOk(rest) {
      assert Indices(rest) == [IndexOf(0, rest[0])] + Indices(rest[1..]);
    }
  }

  lemma RestSplit(rest: seq<string>)
    requires rest != []
    ensures RestOk(rest) <==> Numeral(rest[0]) != [] && PieceOk(0, rest[0]) && RestOk(rest[1..])
  {
    if Numeral(rest[0]) != [] && PieceOk(0, rest[0]) && RestOk(rest[1..]) {
      forall i | 0 <= i < |rest| ensures Numeral(rest[i]) != [] && PieceOk(0, rest[i]) {
        assert i > 0 ==> rest[i] == rest[1..][i - 1];
      }
    }
  }

  lemma FirstChar(s: string)
    requires s != []
    ensures
      var p := Pieces(s)[0];
      && (s[0] == '/' ==> p == [])
      && (s[0] != '/' ==> p != [] && p[0] == s[0])
  {
  }

  /** The first piece has digits only if the string starts with one. */
  lemma StartsWithDigit(s: string)
    requires s != [] && PieceOk(0, Pieces(s)[0])
    ensures Numeral(Pieces(s)[0]) != [] <==> IsDigit(s[0])
  {
    FirstChar(s);
    var p := Pieces(s)[0];
    if Numeral(p) != [] {
      assert Numeral(p)[0] == p[0];
    }
    if IsDigit(s[0]) {
      assert !(Marked(p) && |p| == 1);
    }
  }

  lemma BadStart(s: string)
    requires s != [] && !IsDigit(s[0])
    ensures Meant(0, Pieces(s)).None? || Numeral(Pieces(s)[0]) == []
  {
    if PieceOk(0, Pieces(s)[0]) {
      StartsWithDigit(s);
    }
  }

  /** One more digit in front of a piece. */
  lemma DigitPiece(n: nat, c: char, p: string)
    requires IsDigit(c)
    ensures
      var n' := n * 10 + DigitOf(c);
      && Marked([c] + p) == Marked(p) && Numeral([c] + p) == [c] + Numeral(p)
      && (PieceOk(n, [c] + p) <==> n' < 0x8000_0000 && PieceOk(n', p))
      && (PieceOk(n, [c] + p) ==> IndexOf(n, [c] + p) == IndexOf(n', p))
  {
    var q := Numeral(p);
    assert Marked([c] + p) == Marked(p);
    assert Numeral([c] + p) == [c] + q;
    assert Digits([c] + q) <==> Digits(q) by {
      if Digits([c] + q) {
        assert forall i :: 0 <= i < |q| ==> q[i] == ([c] + q)[i + 1];
      }
    }
    if Digits(q) {
      assert ([c] + q)[1..] == q;
      ValueGrows(n * 10 + DigitOf(c), q);
    }
  }

  lemma MeantDigit(n: nat, c: char, pieces: seq<string>)
    requires pieces != [] && IsDigit(c)
    ensures
      var n' := n * 10 + DigitOf(c);
      Meant(n, [[c] + pieces[0]] + pieces[1..]) == if n' < 0x8000_0000 then Meant(n', pieces) else None
  {
    DigitPiece(n, c, pieces[0]);
    var more := [[c] + pieces[0]] + pieces[1..];
    assert more[0] == [c] + pieces[0] && more[1..] == pieces[1..];
  }

  /** A piece with a character that is neither a digit nor its closing mark means nothing. */
  lemma MeantBad(n: nat, c: char, pieces: seq<string>)
    requires pieces != [] && !IsDigit(c) && (c != '\'' || pieces[0] != [])
    ensures Meant(n, [[c] + pieces[0]] + pieces[1..]) == None
  {
    var p := [c] + pieces[0];
    assert ([p] + pieces[1..])[0] == p;
    if !Marked(p) || |p| > 1 {
      assert Numeral(p)[0] == c;
    }
  }

  lemma MeantEmpty(n: nat)
    requires n < 0x8000_0000
    ensures Meant(n, [[]]) == Some([n])
    ensures Meant(n, ["'"]) == Some([n + 0x8000_0000])
  {
    var none, blank, mark: seq<string> := [], [[]], ["'"];
    EmptyOk(n);
    assert blank[1..] == none && mark[1..] == none;
    assert RestOk(none) && Indices(none) == [];
    assert [n] + [] == [n] && [n + 0x8000_0000] + [] == [n + 0x8000_0000];
  }

  lemma MarkAlone(tail: seq<string>)
    ensures
      var none: string := [];
      [['\''] + none] + ([none] + tail)[1..] == ["'"] + tail
  {
    var none: string := [];
    assert ['\''] + none == "'" && ([none] + tail)[1..] == tail;
  }

  lemma PiecesNone()
    ensures Pieces([]) == [[]]
  {
  }

  lemma PiecesStep(s: string)
    requires s != []
    ensures
      var rest := Pieces(s[1..]);
      Pieces(s) == if s[0] == '/' then [[]] + rest else [[s[0]] + rest[0]] + rest[1..]
  {
  }

  /** The character loop, from any point of it, reads what the pieces mean. */
  lemma {:induction false} StepsMeant(s: string, n: nat)
    requires s != [] && n < 0x8000_0000
    ensures Steps(s, n) == Meant(n, Pieces(s))
    decreases |s|, 1
  {
    hide Pieces, Meant, Numeral, PieceOk;
    PiecesStep(s);
    var rest := Pieces(s[1..]);
    if IsDigit(s[0]) {
      var n' := n * 10 + DigitOf(s[0]);
      MeantDigit(n, s[0], rest);
      if n' < 0x8000_0000 {
        if |s| == 1 {
          PiecesNone();
          MeantEmpty(n');
        } else {
          StepsMeant(s[1..], n');
        }
      }
    } else if s[0] == '\'' {
      StepsMark(s, n);
    } else if s[0] == '/' {
      EmptyOk(n);
      MeantSplit(n, [], rest);
      if |s| == 1 {
        PiecesNone();
        EmptyOk(0);
      } else {
        if IsDigit(s[1]) {
          StepsMeant(s[1..], 0);
          DigitStarts(s[1..]);
        } else {
          BadStart(s[1..]);
        }
      }
    } else {
      MeantBad(n, s[0], rest);
    }
  }

  lemma EmptyOk(n: nat)
    requires n < 0x8000_0000
    ensures PieceOk(n, []) && IndexOf(n, []) == n && Numeral([]) == []
    ensures PieceOk(n, "'") && IndexOf(n, "'") == n + 0x8000_0000
  {
    var mark := "'";
    assert Numeral(mark) == [];
  }

  lemma DigitStarts(s: string)
    requires s != [] && IsDigit(s[0])
    ensures Numeral(Pieces(s)[0]) != []
  {
    FirstChar(s);
  }

  lemma {:induction false} StepsMark(s: string, n: nat)
    requires s != [] && s[0] == '\'' && n < 0x8000_0000
    ensures Steps(s, n) == Meant(n, Pieces(s))
    decreases |s|, 0
  {
    hide Pieces, Meant, Numeral, PieceOk;
    PiecesStep(s);
    if |s| == 1 {
      PiecesNone();
      MeantEmpty(n);
      var none, blank: seq<string> := [], [[]];
      MarkAlone(none);
      assert blank + none == blank && ["'"] + none == ["'"];
      assert s[1..] == [];
      assert Steps([], 0) == Some([]);
      assert [n + HARDENED] + [] == [n + HARDENED];
    } else {
      PiecesStep(s[1..]);
      FirstChar(s[1..]);
      if s[1] != '/' {
        MeantBad(n, '\'', Pieces(s[1..]));
      } else {
        var tail := Pieces(s[2..]);
        assert s[1..][1..] == s[2..];
        MarkAlone(tail);
        EmptyOk(n);
        MeantSplit(n, "'", tail);
        if |s| == 2 {
          PiecesNone();
          EmptyOk(0);
        } else if IsDigit(s[2]) {
          StepsMeant(s[2..], 0);
          DigitStarts(s[2..]);
        } else {
          BadStart(s[2..]);
        }
      }
    }
  }

  /**
   A string is a path exactly when it is not empty and each piece between slashes is a number below 2^31 with or without
   a mark; only the first may lack digits, and then stands for 0. The indices are those numbers, plus 2^31 where marked.
   */
  lemma PathGrammar(path: string)
    ensures ParsedPath(path) == if path == [] then None else Meant(0, Pieces(path))
  {
    hide Steps, Pieces, Meant;
    if path != [] {
      StepsMeant(path, 0);
    }
  }
}
