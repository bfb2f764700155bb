/** Log redaction (`newRedactor` in internal/kopia/user/manager.go). */
module Redaction {
  import opened Text

  const MARK: string := "[REDACTED]"
  const INNER: string := "REDACTED"

  /** No character of `w` is a square bracket. */
  predicate BracketFree(w: string) {
    '[' !in w && ']' !in w
  }

  /** The secrets whose every occurrence is hidden whatever the text: see `HidesIff`. */
  ghost predicate Hideable(w: string) {
    w != "" && BracketFree(w) && !Contains(INNER, w)
  }

  /** A bracket-free word at the front of redacted text was already at the front of the text. */
  lemma {:induction false} FrontSurvives(s: string, sec: string, w: string)
    requires sec != "" && BracketFree(w)
    requires w <= ReplaceAll(s, sec, MARK)
    ensures w <= s
  {
    if |s| < |sec| {
    } else if sec <= s {
      assert ReplaceAll(s, sec, MARK)[0] == '[';
      assert w == "";
    } else if w == "" {
    } else {
      var t := ReplaceAll(s[1..], sec, MARK);
      assert ([s[0]] + t)[1..] == t;
      FrontSurvives(s[1..], sec, w[1..]);
      assert w == [w[0]] + w[1..];
      assert s == [s[0]] + s[1..];
    }
  }

  /** A bracket-free word inside the mark lies between its brackets. */
  lemma InsideMark(out: string, rest: string, w: string, i: int)
    requires out == MARK + rest && w != "" && BracketFree(w)
    requires OccursAt(out, w, i) && i < |MARK|
    ensures Contains(INNER, w)
  {
    assert forall k :: 0 <= k < |w| ==> out[i + k] == w[k];
    assert out[0] == '[' && out[9] == ']';
    assert i != 0;
    assert i + |w| <= 9;
    assert forall k :: 1 <= k < 9 ==> out[k] == MARK[k] == INNER[k - 1];
    assert INNER[i - 1..i - 1 + |w|] == w;
    assert OccursAt(INNER, w, i - 1);
  }

  /** Redacting any secret brings no bracket-free word into the text, short of parts of the mark. */
  lemma {:induction false} NothingNew(s: string, sec: string, w: string)
    requires sec != "" && w != "" && BracketFree(w)
    requires Contains(ReplaceAll(s, sec, MARK), w)
    ensures Contains(s, w) || Contains(INNER, w)
  {
    var out := ReplaceAll(s, sec, MARK);
    var i :| OccursAt(out, w, i);
    if |s| < |sec| {
    } else if sec <= s {
      var rest := ReplaceAll(s[|sec|..], sec, MARK);
      if i < |MARK| {
        InsideMark(out, rest, w, i);
      } else {
        BehindPrefix(out, MARK, rest, w, i);
        NothingNew(s[|sec|..], sec, w);
        if Contains(s[|sec|..], w) { ContainsSuffix(s, |sec|, w); }
      }
    } else if i == 0 {
      FrontSurvives(s, sec, w);
      assert OccursAt(s, w, 0);
    } else {
      var rest := ReplaceAll(s[1..], sec, MARK);
      BehindPrefix(out, [s[0]], rest, w, i);
      NothingNew(s[1..], sec, w);
      if Contains(s[1..], w) { ContainsSuffix(s, 1, w); }
    }
  }

  /** An occurrence behind a prefix is one in the rest. */
  lemma BehindPrefix(out: string, p: string, rest: string, w: string, i: int)
    requires out == p + rest && OccursAt(out, w, i) && i >= |p|
    ensures Contains(rest, w)
  {
    assert rest[i - |p|..i - |p| + |w|] == out[i..i + |w|];
    assert OccursAt(rest, w, i - |p|);
  }

  lemma ContainsSuffix(s: string, n: nat, w: string)
    requires n <= |s| && Contains(s[n..], w)
    ensures Contains(s, w)
  {
    var j :| OccursAt(s[n..], w, j);
    assert s[n + j..n + j + |w|] == s[n..][j..j + |w|];
    assert OccursAt(s, w, n + j);
  }

  /** A hideable secret is gone from the text after its own replacement. */
  lemma {:induction false} Gone(s: string, sec: string)
    requires Hideable(sec)
    ensures !Contains(ReplaceAll(s, sec, MARK), sec)
  {
    var out := ReplaceAll(s, sec, MARK);
    if Contains(out, sec) {
      var i :| OccursAt(out, sec, i);
      if |s| < |sec| {
      } else if sec <= s {
        var rest := ReplaceAll(s[|sec|..], sec, MARK);
        if i < |MARK| {
          InsideMark(out, rest, sec, i);
        } else {
          BehindPrefix(out, MARK, rest, sec, i);
          Gone(s[|sec|..], sec);
        }
      } else if i == 0 {
        FrontSurvives(s, sec, sec);
      } else {
        var rest := ReplaceAll(s[1..], sec, MARK);
        BehindPrefix(out, [s[0]], rest, sec, i);
        Gone(s[1..], sec);
      }
    }
  }

  // --- What replacing leaves ---

  /** The pieces with `sep` between them. */
  function Join(pieces: seq<string>, sep: string): string
    requires pieces != []
  {
    if |pieces| == 1 then pieces[0] else pieces[0] + (sep + Join(pieces[1..], sep))
  }

  /** In `piece + part` the part is found at the end only. */
  ghost predicate UpToFirst(piece: string, part: string) {
    forall i :: OccursAt(piece + part, part, i) ==> i == |piece|
  }

  /** Pieces of a text between the occurrences of `part`, taken from the left. */
  ghost predicate Pieces(s: string, part: string, pieces: seq<string>) {
    && pieces != [] && s == Join(pieces, part)
    && (forall k :: 0 <= k < |pieces| - 1 ==> UpToFirst(pieces[k], part))
    && !Contains(pieces[|pieces| - 1], part)
  }

  lemma OccursLater(c: char, s: string, part: string, i: int)
    requires OccursAt([c] + s, part, i) && i > 0
    ensures OccursAt(s, part, i - 1)
  {
    assert s[i - 1..i - 1 + |part|] == ([c] + s)[i..i + |part|];
  }

  lemma LaterCharacter(c: char, piece: string, rest: string, part: string)
    requires UpToFirst(piece, part) && part != "" && !(part <= [c] + (piece + (part + rest)))
    ensures UpToFirst([c] + piece, part)
  {
    var p := [c] + piece;
    assert p + part == [c] + (piece + part);
    assert p + part + rest == [c] + (piece + (part + rest));
    assert !OccursAt(p + part, part, 0);
    forall i | OccursAt(p + part, part, i) ensures i == |p| {
      OccursLater(c, piece + part, part, i);
    }
  }

  lemma LastCharacter(c: char, piece: string, part: string)
    requires !Contains(piece, part) && !(part <= [c] + piece)
    ensures !Contains([c] + piece, part)
  {
    if i :| OccursAt([c] + piece, part, i) {
      if i > 0 { OccursLater(c, piece, part, i); }
    }
  }

  lemma OneMoreCharacter(s: string, part: string, pieces: seq<string>)
    requires s != "" && part != "" && !(part <= s) && Pieces(s[1..], part, pieces)
    ensures Pieces(s, part, [[s[0]] + pieces[0]] + pieces[1..])
  {
    var more := [[s[0]] + pieces[0]] + pieces[1..];
    assert s == [s[0]] + s[1..];
    if |pieces| == 1 {
      LastCharacter(s[0], pieces[0], part);
    } else {
      LaterCharacter(s[0], pieces[0], Join(pieces[1..], part), part);
      assert more[1..] == pieces[1..];
      assert forall k :: 1 <= k < |more| ==> more[k] == pieces[k];
    }
  }

  lemma OneMorePiece(s: string, part: string, pieces: seq<string>)
    requires part != "" && part <= s && Pieces(s[|part|..], part, pieces)
    ensures Pieces(s, part, [""] + pieces)
  {
    var more := [""] + pieces;
    assert more[1..] == pieces;
    assert s == part + s[|part|..];
    assert "" + (part + Join(pieces, part)) == part + Join(pieces, part);
    assert UpToFirst("", part) by { assert "" + part == part; }
    assert forall k :: 1 <= k < |more| ==> more[k] == pieces[k - 1];
  }

  lemma JoinFront(c: char, pieces: seq<string>, sep: string)
    requires pieces != []
    ensures Join([[c] + pieces[0]] + pieces[1..], sep) == [c] + Join(pieces, sep)
  {
    assert ([[c] + pieces[0]] + pieces[1..])[1..] == pieces[1..];
  }

  lemma JoinEmpty(pieces: seq<string>, sep: string)
    requires pieces != []
    ensures Join([""] + pieces, sep) == sep + Join(pieces, sep)
  {
    assert ([""] + pieces)[1..] == pieces;
    assert "" + (sep + Join(pieces, sep)) == sep + Join(pieces, sep);
  }

  /** Replacing keeps the pieces between the occurrences, in order, and puts the new text between them. */
  lemma {:induction false} ReplaceKeepsPieces(s: string, part: string, into: string) returns (pieces: seq<string>)
    requires part != ""
    ensures Pieces(s, part, pieces) && ReplaceAll(s, part, into) == Join(pieces, into)
  {
    if |s| < |part| {
      pieces := [s];
    } else if part <= s {
      pieces := ReplaceKeepsPieces(s[|part|..], part, into);
      OneMorePiece(s, part, pieces);
      JoinEmpty(pieces, into);
      pieces := [""] + pieces;
    } else {
      pieces := ReplaceKeepsPieces(s[1..], part, into);
      OneMoreCharacter(s, part, pieces);
      JoinFront(s[0], pieces, into);
      pieces := [[s[0]] + pieces[0]] + pieces[1..];
    }
  }

  /** A text without the part stays as it is. */
  lemma {:induction false} NothingReplaced(s: string, part: string, into: string)
    requires part != "" && !Contains(s, part)
    ensures ReplaceAll(s, part, into) == s
  {
    if |s| >= |part| {
      if part <= s { assert OccursAt(s, part, 0); }
      if Contains(s[1..], part) { ContainsSuffix(s, 1, part); }
      NothingReplaced(s[1..], part, into);
      assert s == [s[0]] + s[1..];
    }
  }

  /** For a bracket-free secret, redaction hides it in every text exactly when it is no part of the mark. */
  lemma HidesIff(sec: string)
    requires sec != "" && BracketFree(sec)
    ensures (forall s: string :: !Contains(ReplaceAll(s, sec, MARK), sec)) <==> !Contains(INNER, sec)
  {
    if Contains(INNER, sec) {
      assert sec[|sec|..] == "";
      assert ReplaceAll(sec, sec, MARK) == MARK + ReplaceAll("", sec, MARK);
      assert ReplaceAll(sec, sec, MARK) == MARK;
      assert MARK[1..] == INNER + "]";
      var i :| OccursAt(INNER, sec, i);
      assert MARK[i + 1..i + 1 + |sec|] == INNER[i..i + |sec|];
      assert OccursAt(MARK, sec, i + 1);
    } else {
      forall s: string ensures !Contains(ReplaceAll(s, sec, MARK), sec) {
        Gone(s, sec);
      }
    }
  }

  /** More than eight characters and no bracket suffice. */
  lemma LongSecretsHideable(sec: string)
    requires |sec| > 8 && BracketFree(sec)
    ensures Hideable(sec)
  {
    assert |INNER| == 8;
  }

  /** The text after all secrets have been replaced in turn; empty secrets are skipped. */
  function RedactAll(secrets: seq<string>, s: string): string {
    if secrets == [] then s
    else
      var sec := secrets[|secrets| - 1];
      var before := RedactAll(secrets[..|secrets| - 1], s);
      if sec == "" then before else ReplaceAll(before, sec, MARK)
  }

  /**
   * The function `newRedactor` returns. No hideable secret of the list is in the result,
   * whatever the other secrets of the list are, and no other hideable word is brought in. A text that
   * holds no secret is returned as it is.
   */
  method Redact(secrets: seq<string>, s: string) returns (r: string)
    ensures r == RedactAll(secrets, s)
    ensures forall k :: 0 <= k < |secrets| && Hideable(secrets[k]) ==> !Contains(r, secrets[k])
    ensures forall w: string :: Hideable(w) && !Contains(s, w) ==> !Contains(r, w)
    ensures (forall k :: 0 <= k < |secrets| && secrets[k] != "" ==> !Contains(s, secrets[k])) ==> r == s
  {
    r := s;
    for i := 0 to |secrets|
      invariant r == RedactAll(secrets[..i], s)
      invariant forall k :: 0 <= k < i && Hideable(secrets[k]) ==> !Contains(r, secrets[k])
      invariant forall w: string :: Hideable(w) && !Contains(s, w) ==> !Contains(r, w)
      invariant (forall k :: 0 <= k < i && secrets[k] != "" ==> !Contains(s, secrets[k])) ==> r == s
    {
      var sec := secrets[i];
      assert secrets[..i + 1][..i] == secrets[..i];
      if sec != "" {
        forall w: string | Hideable(w) && !Contains(r, w)
          ensures !Contains(ReplaceAll(r, sec, MARK), w)
        {
          if Contains(ReplaceAll(r, sec, MARK), w) { NothingNew(r, sec, w); }
        }
        if Hideable(sec) { Gone(r, sec); }
        if !Contains(r, sec) { NothingReplaced(r, sec, MARK); }
        r := ReplaceAll(r, sec, MARK);
      }
    }
    assert secrets[..|secrets|] == secrets;
  }
}
