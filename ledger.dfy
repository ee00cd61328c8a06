/**
 * The reply ledger's file format in LaunchBot.py: `comments_replied_to.txt`
 * holds one comment id per line. Loading reads the file in text mode (which
 * turns "\r\n" and "\r" into "\n"), splits the text on "\n" and drops
 * empty strings; saving writes each id followed by "\n".
 */
module Ledger {
  import opened Wrappers

  /** Python's `"\n".join(pieces)`, the inverse of `Split`. */
  function JoinLines(pieces: seq<string>): string
    requires pieces != []
  {
    if |pieces| == 1 then pieces[0] else pieces[0] + "\n" + JoinLines(pieces[1..])
  }

  /**
   * Python's `text.split("\n")`: the pieces between newlines, so one more
   * piece than there are newlines, none containing a newline, and joining
   * them with "\n" gives the text back.
   */
  function Split(text: string): (pieces: seq<string>)
    ensures pieces != []
    ensures forall piece :: piece in pieces ==> '\n' !in piece
    ensures forall piece, c :: piece in pieces && c in piece ==> c in text
    ensures JoinLines(pieces) == text
  {
    if text == [] then [""]
    else
      var rest := Split(text[1..]);
      if text[0] == '\n' then [""] + rest
      else
        assert text == [text[0]] + text[1..];
        [[text[0]] + rest[0]] + rest[1..]
  }

  /**
   * What `f.read()` returns in text mode: every "\r\n" and every other
   * "\r" becomes "\n", and nothing else changes.
   */
  function Universal(text: string): (r: string)
    ensures '\r' !in r
    ensures |r| <= |text|
  {
    if text == [] then []
    else if text[0] == '\r' then
      if |text| >= 2 && text[1] == '\n' then "\n" + Universal(text[2..]) else "\n" + Universal(text[1..])
    else [text[0]] + Universal(text[1..])
  }

  /** Text without a carriage return reads back unchanged. */
  lemma {:induction false} UniversalKeeps(text: string)
    requires '\r' !in text
    ensures Universal(text) == text
  {
    if text != [] {
      assert '\r' !in text[1..] by { assert forall c :: c in text[1..] ==> c in text; }
      UniversalKeeps(text[1..]);
    }
  }

  /**
   * A line break in the file: text without a carriage return is kept, then
   * a "\r\n", or a "\r" not followed by "\n", reads as one "\n". With
   * `UniversalKeeps` this fixes what reading returns for every text.
   */
  lemma {:induction false} UniversalLineBreak(a: string, b: string)
    requires '\r' !in a
    ensures Universal(a + "\r\n" + b) == a + "\n" + Universal(b)
    ensures (b == [] || b[0] != '\n') ==> Universal(a + "\r" + b) == a + "\n" + Universal(b)
  {
    if a == [] {
      assert (a + "\r\n" + b)[2..] == b;
      assert (a + "\r" + b)[1..] == b;
    } else {
      assert '\r' !in a[1..] by { assert forall c :: c in a[1..] ==> c in a; }
      assert (a + "\r\n" + b)[1..] == a[1..] + "\r\n" + b;
      assert (a + "\r" + b)[1..] == a[1..] + "\r" + b;
      UniversalLineBreak(a[1..], b);
      assert [a[0]] + a[1..] == a;
    }
  }

  /** `list(filter(None, pieces))`: the pieces that are not empty, in order. */
  function NonEmpty(pieces: seq<string>): (r: seq<string>)
    ensures forall id :: id in r <==> id in pieces && id != ""
    ensures |r| <= |pieces|
  {
    if pieces == [] then []
    else if pieces[0] == "" then NonEmpty(pieces[1..])
    else [pieces[0]] + NonEmpty(pieces[1..])
  }

  /** A single piece is dropped exactly when it is empty. */
  lemma NonEmptySingle(piece: string)
    ensures NonEmpty([piece]) == if piece == "" then [] else [piece]
  {
    assert [piece][1..] == [];
  }

  /**
   * Filtering works piece by piece: the kept pieces of `a + b` are those of
   * `a` followed by those of `b`, so order and repetitions are kept.
   */
  lemma {:induction false} NonEmptyAppend(a: seq<string>, b: seq<string>)
    ensures NonEmpty(a + b) == NonEmpty(a) + NonEmpty(b)
  {
    if a != [] {
      assert (a + b)[0] == a[0];
      assert (a + b)[1..] == a[1..] + b;
      NonEmptyAppend(a[1..], b);
    } else {
      assert a + b == b;
    }
  }

  /** The ledger at start-up: empty when the file is missing, else its non-empty lines. */
  function Load(file: Option<string>): (ids: seq<string>)
    ensures forall id :: id in ids ==> ValidId(id)
    ensures file.None? ==> ids == []
  {
    match file
    case None => []
    case Some(text) => NonEmpty(Split(Universal(text)))
  }

  /** What `exit_handler` writes: every id followed by "\n". */
  function Serialize(ids: seq<string>): string
  {
    if ids == [] then "" else ids[0] + "\n" + Serialize(ids[1..])
  }

  /** An id the file format can hold: non-empty and free of line breaks. */
  predicate ValidId(id: string)
  {
    id != "" && '\n' !in id && '\r' !in id
  }

  lemma {:induction false} SerializeAppend(ids: seq<string>, id: string)
    ensures Serialize(ids + [id]) == Serialize(ids) + id + "\n"
  {
    if ids != [] {
      assert (ids + [id])[1..] == ids[1..] + [id];
      SerializeAppend(ids[1..], id);
    }
  }

  /** A line followed by a newline splits off as the first piece. */
  lemma {:induction false} SplitLine(line: string, rest: string)
    requires '\n' !in line
    ensures Split(line + "\n" + rest) == [line] + Split(rest)
  {
    var text := line + "\n" + rest;
    if line == [] {
      assert text[1..] == rest;
    } else {
      assert text[1..] == line[1..] + "\n" + rest;
      SplitLine(line[1..], rest);
      assert [line[0]] + line[1..] == line;
    }
  }

  lemma {:induction false} SplitSerialize(ids: seq<string>)
    requires forall id :: id in ids ==> '\n' !in id
    ensures Split(Serialize(ids)) == ids + [""]
  {
    if ids != [] {
      SplitLine(ids[0], Serialize(ids[1..]));
      SplitSerialize(ids[1..]);
    }
  }

  lemma {:induction false} NonEmptyKeeps(ids: seq<string>)
    requires forall id :: id in ids ==> id != ""
    ensures NonEmpty(ids + [""]) == ids
  {
    if ids != [] {
      assert (ids + [""])[1..] == ids[1..] + [""];
      assert ids[0] in ids;
      assert forall id :: id in ids[1..] ==> id in ids;
      NonEmptyKeeps(ids[1..]);
    }
  }

  /** What `exit_handler` writes holds a carriage return only where an id does. */
  lemma {:induction false} SerializeNoCarriageReturn(ids: seq<string>)
    requires forall id :: id in ids ==> '\r' !in id
    ensures '\r' !in Serialize(ids)
  {
    if ids != [] {
      assert forall id :: id in ids[1..] ==> id in ids;
      SerializeNoCarriageReturn(ids[1..]);
      assert Serialize(ids) == ids[0] + "\n" + Serialize(ids[1..]);
    }
  }

  /** Loading what `exit_handler` saved gives back the same ids in the same order. */
  lemma LoadAfterSave(ids: seq<string>)
    requires forall id :: id in ids ==> ValidId(id)
    ensures Load(Some(Serialize(ids))) == ids
  {
    SerializeNoCarriageReturn(ids);
    UniversalKeeps(Serialize(ids));
    SplitSerialize(ids);
    NonEmptyKeeps(ids);
  }

  /** An id holding a carriage return does not survive a save and a load: it reads back as two ids. */
  lemma CarriageReturnSplitsId()
    ensures Load(Some(Serialize(["a\rb"]))) == ["a", "b"]
  {
    var written := Serialize(["a\rb"]);
    assert written == "a\rb\n";
    UniversalKeeps("b\n");
    assert Universal("\rb\n") == "\n" + Universal("b\n");
    assert Universal(written) == "a" + "\n" + "b\n";
    SplitLine("a", "b\n");
    SplitSerialize(["b"]);
    assert Split("a\nb\n") == ["a"] + ["b", ""];
    NonEmptyKeeps(["a", "b"]);
    assert ["a"] + ["b", ""] == ["a", "b"] + [""];
  }
}
