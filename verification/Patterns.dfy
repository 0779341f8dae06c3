/** What the portable glob's patterns say: a pattern as a list of pieces, how the pieces are written, and what text
    they are for. The matcher of the Glob module is shown to take every pattern for the pieces it spells. */
module Patterns {
  import opened Text
  import opened Wrappers
  import opened Glob

  /** What a class lists: one character, or all from one to another. */
  datatype Item = One(c: Code) | Range(low: Code, high: Code)

  datatype Piece = AnyText | AnyOne | Exactly(c: Code) | Class(negated: bool, items: seq<Item>)

  // --- what pieces are for -------------------------------------------------------------------

  predicate Covers(item: Item, c: Code)
  {
    match item
    case One(d) => c == d
    case Range(low, high) => low <= c && c <= high
  }

  ghost predicate Has(piece: Piece, c: Code)
    requires !piece.AnyText?
  {
    match piece
    case AnyOne => true
    case Exactly(d) => c == d
    case Class(negated, items) => negated <==> !exists k :: 0 <= k < |items| && Covers(items[k], c)
  }

  /** The text is one stretch for each piece: any for a star, else a single character the piece has. */
  ghost predicate Fits(pieces: seq<Piece>, t: Text)
    decreases pieces
  {
    if pieces == [] then t == []
    else if pieces[0].AnyText? then exists k :: 0 <= k <= |t| && Fits(pieces[1..], t[k..])
    else t != [] && Has(pieces[0], t[0]) && Fits(pieces[1..], t[1..])
  }

  // --- how pieces are written ----------------------------------------------------------------

  function SpellItem(item: Item): Text
  {
    match item
    case One(c) => [c]
    case Range(low, high) => [low, DASH, high]
  }

  function SpellItems(items: seq<Item>): Text
  {
    if items == [] then [] else SpellItem(items[0]) + SpellItems(items[1..])
  }

  function SpellPiece(piece: Piece): Text
  {
    match piece
    case AnyText => [STAR]
    case AnyOne => [QUESTION]
    case Exactly(c) => [c]
    case Class(negated, items) => [LBRACKET] + (if negated then [BANG] else []) + SpellItems(items) + [RBRACKET]
  }

  function Spelling(pieces: seq<Piece>): Text
  {
    if pieces == [] then [] else SpellPiece(pieces[0]) + Spelling(pieces[1..])
  }

  /** A lone character is not followed by a dash and something more, which would make it a range. */
  ghost predicate Loose(items: seq<Item>)
  {
    forall k :: 0 <= k < |items| && items[k].One? ==>
      var rest := SpellItems(items[k + 1..]); |rest| >= 2 ==> rest[0] != DASH
  }

  /** A closing bracket can only stand first. */
  ghost predicate Closeless(body: Text)
  {
    forall k :: 1 <= k < |body| ==> body[k] != RBRACKET
  }

  function PastMark(after: Text): Text
  {
    if after != [] && after[0] == BANG then after[1..] else after
  }

  /** The piece can be written and read for itself, before that text: a lone bracket must not be closed by what
      follows, and a class must be closed by its own bracket alone. */
  ghost predicate Writable(piece: Piece, after: Text)
  {
    match piece
    case Exactly(c) => c != STAR && c != QUESTION && (c == LBRACKET ==> Closeless(PastMark(after)))
    case Class(negated, items) =>
      && items != [] && Loose(items) && (!negated ==> SpellItems(items)[..1] != [BANG]) && Closeless(SpellItems(items))
    case _ => true
  }

  ghost predicate AllWritable(pieces: seq<Piece>)
  {
    forall k :: 0 <= k < |pieces| ==> Writable(pieces[k], Spelling(pieces[k + 1..]))
  }

  // --- classes -------------------------------------------------------------------------------

  lemma LooseRest(items: seq<Item>)
    requires items != [] && Loose(items)
    ensures Loose(items[1..])
  {
    forall k | 0 <= k < |items[1..]| && items[1..][k].One?
      ensures var rest := SpellItems(items[1..][k + 1..]); |rest| >= 2 ==> rest[0] != DASH
    {
      assert items[1..][k + 1..] == items[k + 2..] && items[k + 1].One?;
    }
    hide SpellItems;
  }

  lemma {:induction false} ItemsAreRead(body: Text, i: nat, items: seq<Item>, c: Code)
    requires i <= |body| && body[i..] == SpellItems(items) && Loose(items)
    ensures InItems(body, i, c) <==> exists k :: 0 <= k < |items| && Covers(items[k], c)
    decreases items
  {
    if items != [] {
      LooseRest(items);
      var n := |SpellItem(items[0])|;
      var rest := SpellItems(items[1..]);
      assert body[i..] == SpellItem(items[0]) + rest;
      assert body[i + n..] == body[i..][n..] == rest;
      ItemsAreRead(body, i + n, items[1..], c);
      FirstOrLater(items, c);
      assert body[i] == body[i..][0];
      if n == 3 {
        assert body[i + 1] == body[i..][1] && body[i + 2] == body[i..][2];
      } else {
        assert items[0].One? && items[0 + 1..] == items[1..];
        if |rest| >= 2 { assert body[i + 1] == body[i..][1] == rest[0]; }
      }
    }
  }

  lemma FirstOrLater(items: seq<Item>, c: Code)
    requires items != []
    ensures (exists k :: 0 <= k < |items| && Covers(items[k], c))
            <==> Covers(items[0], c) || exists k :: 0 <= k < |items[1..]| && Covers(items[1..][k], c)
  {
    if k :| 0 <= k < |items| && Covers(items[k], c) {
      if k > 0 { assert items[1..][k - 1] == items[k]; }
    }
  }

  lemma {:induction false} FirstCloseIs(p: Text, from: nat, at: nat)
    requires from <= at < |p| && p[at] == RBRACKET && forall k :: from <= k < at ==> p[k] != RBRACKET
    ensures FirstClose(p, from) == Some(at)
    decreases at - from
  {
    if from < at { FirstCloseIs(p, from + 1, at); }
  }

  lemma {:induction false} ItemsNonempty(items: seq<Item>)
    requires items != []
    ensures |SpellItems(items)| > 0
  {
  }

  /** Where the parts of a class stand in its spelling. */
  lemma ClassSpelled(negated: bool, items: seq<Item>)
    ensures var s, m, body := SpellPiece(Class(negated, items)), if negated then 1 else 0, SpellItems(items);
            && |s| == |body| + m + 2 && s[0] == LBRACKET && s[|s| - 1] == RBRACKET
            && (negated ==> s[1] == BANG) && s[1 + m..|s| - 1] == body
                && s[1..|s| - 1] == (if negated then [BANG] else []) + body
            && forall k :: 0 <= k < |body| ==> s[1 + m + k] == body[k]
  {
    hide SpellItems;
  }

  lemma ClassFound(p: Text, i: nat, m: nat, body: Text, end: nat)
    requires m <= 1 && body != [] && end == i + 1 + m + |body| < |p|
    requires p[i + 1] == BANG <==> m == 1
    requires p[i + 1 + m..end] == body && p[end] == RBRACKET && Closeless(body)
    ensures ClassEnd(p, i) == Some(end)
  {
    var from := ClassSearchStart(p, i);
    assert p[i + 1 + m] == body[0];
    forall k | from <= k < end ensures p[k] != RBRACKET {
      assert p[k] == body[k - (i + 1 + m)];
    }
    FirstCloseIs(p, from, end);
    hide FirstClose;
  }

  /** A class ends where its spelling does. */
  lemma SpelledClassFound(p: Text, i: nat, s: Text, after: Text, m: nat, body: Text)
    requires i <= |p| && p[i..] == s + after && m <= 1 && body != [] && |s| == |body| + m + 2
    requires s[0] == LBRACKET && s[|s| - 1] == RBRACKET && s[1 + m..|s| - 1] == body && Closeless(body)
    requires if m == 1 then s[1] == BANG else body[..1] != [BANG]
    ensures i + |s| <= |p| && ClassEnd(p, i) == Some(i + |s| - 1) && p[i] == LBRACKET
            && p[i + 1..i + |s| - 1] == s[1..|s| - 1]
  {
    hide ClassEnd, Closeless;
    Stretch(p, i, s, after, 0, 1);
    Stretch(p, i, s, after, 1, |s| - 1);
    Stretch(p, i, s, after, 1 + m, |s| - 1);
    Stretch(p, i, s, after, |s| - 1, |s|);
    assert body[..1] == [body[0]] && s[1 + m] == body[0];
    ClassFound(p, i, m, body, i + |s| - 1);
  }

  lemma Stretch(p: Text, i: nat, s: Text, after: Text, a: nat, b: nat)
    requires i <= |p| && p[i..] == s + after && a < b <= |s|
    ensures i + b <= |p| && p[i + a..i + b] == s[a..b] && p[i + a] == s[a]
  {
    assert |p[i..]| == |s| + |after|;
    forall k | a <= k < b ensures p[i + k] == s[k] { assert p[i..][k] == (s + after)[k]; }
    assert p[i + a..i + b] == s[a..b];
  }

  lemma BodyIsRead(negated: bool, items: seq<Item>, c: Code)
    requires items != [] && Loose(items) && (!negated ==> SpellItems(items)[..1] != [BANG])
    ensures InClass((if negated then [BANG] else []) + SpellItems(items), c) <==> Has(Class(negated, items), c)
  {
    ItemsNonempty(items);
    var spelled := SpellItems(items);
    var body := (if negated then [BANG] else []) + spelled;
    assert spelled[0..] == spelled;
    ItemsAreRead(spelled, 0, items, c);
    hide InItems, SpellItems, Loose, Covers;
    if negated { assert body[1..] == spelled; } else { assert body == spelled && spelled[..1] == [spelled[0]]; }
  }

  lemma ClassAccepts(p: Text, i: nat, negated: bool, items: seq<Item>, after: Text, c: Code)
    requires i < |p| && p[i..] == SpellPiece(Class(negated, items)) + after && Writable(Class(negated, items), after)
    ensures Next(p, i) == i + |SpellPiece(Class(negated, items))| && p[i] == LBRACKET
    ensures Accepts(p, i, c) <==> Has(Class(negated, items), c)
  {
    hide InClass, SpellItems, SpellPiece, Loose, ClassEnd, Has, Closeless;
    ItemsNonempty(items);
    ClassSpelled(negated, items);
    SpelledClassFound(p, i, SpellPiece(Class(negated, items)), after, if negated then 1 else 0, SpellItems(items));
    BodyIsRead(negated, items, c);
  }

  lemma UnclosedIsLiteral(p: Text, i: nat)
    requires i < |p| && p[i] == LBRACKET
    ensures ClassEnd(p, i).None? <==> Closeless(PastMark(p[i + 1..]))
  {
    var b := if i + 1 < |p| && p[i + 1] == BANG then i + 2 else i + 1;
    var body := PastMark(p[i + 1..]);
    assert body == p[b..];
    var from, r := ClassSearchStart(p, i), ClassEnd(p, i);
    assert r == FirstClose(p, from) && (from == b + 1 || (from == b && !(b < |p| && p[b] == RBRACKET)));
    hide FirstClose, ClassSearchStart, ClassEnd, PastMark;
    if r.Some? {
      assert r.value > b;
      assert body[r.value - b] == p[r.value];
    } else {
      forall k | 1 <= k < |body| ensures body[k] != RBRACKET { assert body[k] == p[b + k]; }
    }
  }

  // --- the matcher takes every pattern for its pieces -------------------------------------------

  lemma PieceIsRead(p: Text, i: nat, piece: Piece, after: Text, c: Code)
    requires i < |p| && p[i..] == SpellPiece(piece) + after && Writable(piece, after)
    ensures Next(p, i) == i + |SpellPiece(piece)| && p[Next(p, i)..] == after
    ensures p[i] == STAR <==> piece.AnyText?
    ensures !piece.AnyText? ==> (Accepts(p, i, c) <==> Has(piece, c))
  {
    hide InClass, FirstClose, Closeless;
    if piece.Class? {
      ClassAccepts(p, i, piece.negated, piece.items, after, c);
    } else {
      assert p[i] == p[i..][0] == SpellPiece(piece)[0];
      assert p[i + 1..] == p[i..][1..] == after;
      if p[i] == LBRACKET { UnclosedIsLiteral(p, i); }
    }
    var n := |SpellPiece(piece)|;
    assert p[i + n..] == p[i..][n..] == after;
  }

  lemma RestWritable(pieces: seq<Piece>)
    requires pieces != [] && AllWritable(pieces)
    ensures Writable(pieces[0], Spelling(pieces[1..])) && AllWritable(pieces[1..])
  {
    hide Writable, Spelling;
    assert pieces[0 + 1..] == pieces[1..];
    forall k | 0 <= k < |pieces[1..]| ensures Writable(pieces[1..][k], Spelling(pieces[1..][k + 1..])) {
      assert pieces[1..][k + 1..] == pieces[k + 2..];
    }
  }

  lemma {:induction false} PiecesAreRead(p: Text, i: nat, pieces: seq<Piece>, t: Text, j: nat)
    requires i <= |p| && j <= |t| && p[i..] == Spelling(pieces) && AllWritable(pieces)
    ensures Matches(p, i, t, j) <==> Fits(pieces, t[j..])
    decreases pieces
  {
    if pieces == [] {
    } else {
      RestWritable(pieces);
      var after := Spelling(pieces[1..]);
      assert p[i..] == SpellPiece(pieces[0]) + after;
      PieceIsRead(p, i, pieces[0], after, if j < |t| then t[j] else 0);
      hide AllWritable, Writable, Accepts, Has, Next, Spelling;
      if pieces[0].AnyText? {
        forall k: nat | j <= k <= |t|
          ensures Matches(p, Next(p, i), t, k) <==> Fits(pieces[1..], t[j..][k - j..])
        {
          PiecesAreRead(p, Next(p, i), pieces[1..], t, k);
          assert t[j..][k - j..] == t[k..];
        }
        if Fits(pieces, t[j..]) {
          var k :| 0 <= k <= |t[j..]| && Fits(pieces[1..], t[j..][k..]);
          assert Matches(p, Next(p, i), t, j + k);
        }
      } else if j < |t| {
        PiecesAreRead(p, Next(p, i), pieces[1..], t, j + 1);
        assert t[j..][1..] == t[j + 1..] && t[j..][0] == t[j];
      }
    }
  }

  /** The pattern that spells these pieces matches exactly the texts they are for. */
  lemma PatternMeans(pieces: seq<Piece>, t: Text)
    requires AllWritable(pieces)
    ensures Matches(Spelling(pieces), 0, t, 0) <==> Fits(pieces, t)
  {
    var p := Spelling(pieces);
    assert p[0..] == p && t[0..] == t;
    PiecesAreRead(p, 0, pieces, t, 0);
  }

  // --- every pattern spells some pieces ----------------------------------------------------------

  lemma {:induction false} SomeItems(body: Text) returns (items: seq<Item>)
    ensures SpellItems(items) == body && Loose(items) && (items == [] <==> body == [])
    decreases |body|
  {
    if body == [] {
      items := [];
    } else if |body| > 2 && body[1] == DASH {
      var rest := SomeItems(body[3..]);
      items := [Range(body[0], body[2])] + rest;
      assert items[1..] == rest;
      assert body == [body[0], DASH, body[2]] + body[3..];
      LooseMore(items);
    } else {
      var rest := SomeItems(body[1..]);
      items := [One(body[0])] + rest;
      assert items[1..] == rest;
      assert body == [body[0]] + body[1..];
      LooseMore(items);
    }
  }

  lemma LooseMore(items: seq<Item>)
    requires items != [] && Loose(items[1..])
    requires items[0].One? && |SpellItems(items[1..])| >= 2 ==> SpellItems(items[1..])[0] != DASH
    ensures Loose(items)
  {
    forall k | 0 <= k < |items| && items[k].One?
      ensures var rest := SpellItems(items[k + 1..]); |rest| >= 2 ==> rest[0] != DASH
    {
      if k > 0 { assert items[k + 1..] == items[1..][k..] && items[1..][k - 1].One?; }
    }
    hide SpellItems;
  }

  lemma WritableMore(piece: Piece, rest: seq<Piece>)
    requires Writable(piece, Spelling(rest)) && AllWritable(rest)
    ensures AllWritable([piece] + rest) && Spelling([piece] + rest) == SpellPiece(piece) + Spelling(rest)
  {
    var all := [piece] + rest;
    assert all[1..] == rest;
    forall k | 0 <= k < |all| ensures Writable(all[k], Spelling(all[k + 1..])) {
      if k > 0 { assert all[k + 1..] == rest[k..] && all[k] == rest[k - 1]; }
    }
    hide Writable, SpellPiece;
  }

  lemma EndPlace(p: Text)
    requires p != [] && p[0] == LBRACKET && ClassEnd(p, 0).Some?
    ensures var end, m := ClassEnd(p, 0).value, if p[1] == BANG then 2 else 1;
            m < end && p[end] == RBRACKET && Closeless(p[m..end])
  {
    hide FirstClose;
  }

  lemma Split(p: Text, m: nat, end: nat)
    requires 1 <= m <= end < |p|
    ensures p[..end + 1] == [p[0]] + p[1..m] + p[m..end] + [p[end]]
  {
  }

  /** What stands between the brackets of a class that is closed is the spelling of one. */
  lemma SomeClass(p: Text) returns (piece: Piece)
    requires p != [] && p[0] == LBRACKET && ClassEnd(p, 0).Some?
    ensures SpellPiece(piece) == p[..ClassEnd(p, 0).value + 1] && piece.Class? && forall after :: Writable(piece, after)
  {
    hide ClassEnd, Loose, SpellItems, Closeless;
    var end := ClassEnd(p, 0).value;
    EndPlace(p);
    var negated := p[1] == BANG;
    var m := if negated then 2 else 1;
    var items := SomeItems(p[m..end]);
    piece := Class(negated, items);
    Split(p, m, end);
    assert p[1..m] == if negated then [BANG] else [];
    assert p[m..end][..1] == [p[m]];
  }

  lemma SomePiece(p: Text) returns (piece: Piece, n: nat)
    requires p != []
    ensures 0 < n <= |p| && SpellPiece(piece) == p[..n] && Writable(piece, p[n..])
  {
    if p[0] == LBRACKET && ClassEnd(p, 0).Some? {
      piece := SomeClass(p);
      n := ClassEnd(p, 0).value + 1;
      hide Writable, SpellPiece, ClassEnd;
    } else {
      hide ClassEnd, Closeless;
      piece := if p[0] == STAR then AnyText else if p[0] == QUESTION then AnyOne else Exactly(p[0]);
      n := 1;
      if p[0] == LBRACKET { UnclosedIsLiteral(p, 0); }
    }
  }

  /** Every text is the spelling of pieces that are read for themselves, so no pattern is without a meaning. */
  lemma {:induction false} EveryPatternSpells(p: Text) returns (pieces: seq<Piece>)
    ensures Spelling(pieces) == p && AllWritable(pieces)
    decreases |p|
  {
    if p == [] {
      pieces := [];
    } else {
      var piece, n := SomePiece(p);
      hide SpellPiece, Writable, AllWritable, Spelling;
      var rest := EveryPatternSpells(p[n..]);
      WritableMore(piece, rest);
      pieces := [piece] + rest;
      assert p == p[..n] + p[n..];
    }
  }
}
