/**
 * The repeat_days column of the reminders table
 * (internal/repository/reminder_repository.go): a list of ints stored as
 * their decimals joined by ",", read back piece by piece, trimming white
 * space and skipping pieces that are blank or not integers.
 */
module RepeatDaysCodec {
  import opened GoStrings
  import opened GoStrconv

  /** The decimal text of each day, in order. */
  function DayTexts(days: seq<int>): seq<string>
  {
    seq(|days|, i requires 0 <= i < |days| => Itoa(days[i]))
  }

  /** serializeRepeatDays: "" for no days, otherwise the decimals joined by ','. */
  function Serialized(days: seq<int>): string
  {
    if |days| == 0 then "" else Join(DayTexts(days), ',')
  }

  /** What splitAndTrim keeps of one piece: its trimmed text, or nothing when that is blank. */
  function KeepPiece(part: string): seq<string>
  {
    var t := TrimSpace(part);
    if t != "" then [t] else []
  }

  /** The pieces splitAndTrim keeps, in their original order. */
  function TrimmedPieces(parts: seq<string>): (r: seq<string>)
    ensures |r| <= |parts|
  {
    if |parts| == 0 then []
    else TrimmedPieces(parts[..|parts| - 1]) + KeepPiece(parts[|parts| - 1])
  }

  /** splitAndTrim(s, sep) as a value. */
  function SplitTrimmed(s: string, sep: char): seq<string>
  {
    TrimmedPieces(Split(s, sep))
  }

  /** The values of the pieces Atoi accepts, in order. */
  function ParsedInts(pieces: seq<string>): (r: seq<Int64>)
    ensures |r| <= |pieces|
  {
    if |pieces| == 0 then []
    else
      var a := Atoi(pieces[|pieces| - 1]);
      ParsedInts(pieces[..|pieces| - 1]) + (if a.ok then [a.value] else [])
  }

  /** deserializeRepeatDays as a value: nil (here []) for "", otherwise the integer pieces. */
  function Deserialized(days: string): seq<Int64>
  {
    if days == "" then [] else ParsedInts(SplitTrimmed(days, ','))
  }

  /** serializeRepeatDays: appends the decimal of each day, then joins them. */
  method SerializeRepeatDays(days: seq<int>) returns (s: string)
    ensures s == Serialized(days)
  {
    if |days| == 0 {
      return "";
    }
    var parts: seq<string> := [];
    var i := 0;
    while i < |days|
      invariant 0 <= i <= |days|
      invariant parts == DayTexts(days[..i])
    {
      parts := parts + [Itoa(days[i])];
      i := i + 1;
    }
    assert days[..|days|] == days;
    s := Join(parts, ',');
  }

  /** splitAndTrim: strings.Split, then one pass over the pieces. */
  method SplitAndTrim(s: string, sep: char) returns (out: seq<string>)
    ensures out == SplitTrimmed(s, sep)
  {
    var parts := Split(s, sep);
    out := TrimEach(parts);
  }

  /** The loop of splitAndTrim: keeps each non-blank piece, trimmed, in order. */
  method TrimEach(parts: seq<string>) returns (out: seq<string>)
    ensures out == TrimmedPieces(parts)
  {
    out := [];
    var i := 0;
    while i < |parts|
      invariant 0 <= i <= |parts|
      invariant out == TrimmedPieces(parts[..i])
    {
      var trimmed := TrimSpace(parts[i]);
      ghost var before := out;
      if trimmed != "" {
        out := out + [trimmed];
      }
      TrimmedPiecesStep(parts, i, before, trimmed, out);
      i := i + 1;
    }
    assert parts[..|parts|] == parts;
  }

  /** deserializeRepeatDays: "" gives no days; otherwise each piece Atoi accepts, in order. */
  method DeserializeRepeatDays(days: string) returns (result: seq<Int64>)
    ensures result == Deserialized(days)
  {
    if days == "" {
      return [];
    }
    var pieces := SplitAndTrim(days, ',');
    result := [];
    var i := 0;
    while i < |pieces|
      invariant 0 <= i <= |pieces|
      invariant result == ParsedInts(pieces[..i])
    {
      ParsedIntsStep(pieces, i);
      var a := Atoi(pieces[i]);
      if a.ok {
        result := result + [a.value];
      }
      i := i + 1;
    }
    assert pieces[..|pieces|] == pieces;
  }

  lemma TrimmedPiecesStep(parts: seq<string>, i: int, kept: seq<string>, trimmed: string, after: seq<string>)
    requires 0 <= i < |parts| && kept == TrimmedPieces(parts[..i]) && trimmed == TrimSpace(parts[i])
    requires after == if trimmed != "" then kept + [trimmed] else kept
    ensures after == TrimmedPieces(parts[..i + 1])
  {
    assert parts[..i + 1][..i] == parts[..i];
  }

  lemma ParsedIntsStep(pieces: seq<string>, i: int)
    requires 0 <= i < |pieces|
    ensures ParsedInts(pieces[..i + 1]) == ParsedInts(pieces[..i]) + (if Atoi(pieces[i]).ok then [Atoi(pieces[i]).value] else [])
  {
    assert pieces[..i + 1][..i] == pieces[..i];
  }

  lemma LastSplit<T>(s: seq<T>)
    requires |s| > 0
    ensures s == s[..|s| - 1] + [s[|s| - 1]]
  {
  }

  lemma TrimmedPiecesSnoc(parts: seq<string>, p: string)
    ensures TrimmedPieces(parts + [p]) == TrimmedPieces(parts) + KeepPiece(p)
  {
    assert (parts + [p])[..|parts|] == parts;
  }

  /** Pieces that splitAndTrim keeps as they are all survive, unchanged and in order. */
  lemma {:induction false} TrimmedPiecesKeepsClean(parts: seq<string>)
    requires forall i :: 0 <= i < |parts| ==> KeepPiece(parts[i]) == [parts[i]]
    ensures TrimmedPieces(parts) == parts
  {
    if |parts| > 0 {
      var init := parts[..|parts| - 1];
      TrimmedPiecesKeepsClean(init);
      LastSplit(parts);
    }
  }

  /** A non-blank trimmed piece is kept as it is. */
  lemma KeepCleanPiece(p: string)
    requires |p| > 0 && Trimmed(p)
    ensures KeepPiece(p) == [p]
  {
    TrimSpaceClean(p);
  }

  /** Every piece splitAndTrim keeps is non-blank and trimmed. */
  lemma {:induction false} TrimmedPiecesClean(parts: seq<string>)
    ensures forall i :: 0 <= i < |TrimmedPieces(parts)| ==>
      |TrimmedPieces(parts)[i]| > 0 && Trimmed(TrimmedPieces(parts)[i])
  {
    if |parts| > 0 {
      TrimSpaceShape(parts[|parts| - 1]);
      TrimmedPiecesClean(parts[..|parts| - 1]);
    }
  }

  /** splitAndTrim keeps nothing exactly when every piece is blank. */
  lemma {:induction false} TrimmedPiecesEmpty(parts: seq<string>)
    ensures TrimmedPieces(parts) == [] <==> forall i :: 0 <= i < |parts| ==> TrimSpace(parts[i]) == ""
  {
    if |parts| > 0 {
      TrimmedPiecesEmpty(parts[..|parts| - 1]);
      assert forall i :: 0 <= i < |parts| - 1 ==> parts[..|parts| - 1][i] == parts[i];
    }
  }

  /** Atoi reads every decimal back, so parsing the decimals of int64 values gives the values. */
  lemma {:induction false} ParsedIntsOfTexts(days: seq<Int64>)
    ensures ParsedInts(DayTexts(days)) == days
  {
    if |days| > 0 {
      var init, last := days[..|days| - 1], days[|days| - 1];
      ParsedIntsOfTexts(init);
      assert init + [last] == days;
      DayTextsSnoc(init, last);
      ParsedIntsSnoc(DayTexts(init), Itoa(last));
      AtoiItoa(last);
    }
  }

  lemma DayTextsSnoc(days: seq<int>, d: int)
    ensures DayTexts(days + [d]) == DayTexts(days) + [Itoa(d)]
  {
  }

  /** A decimal is non-blank, already trimmed and free of commas. */
  lemma ItoaClean(n: int)
    ensures |Itoa(n)| > 0 && Trimmed(Itoa(n)) && ',' !in Itoa(n)
  {
    var s := Itoa(n);
    assert !IsSpace(s[0]) && !IsSpace(s[|s| - 1]);
  }

  /** Round trip: reading back the stored text of any list of ints gives that list. */
  lemma RepeatDaysRoundTrip(days: seq<Int64>)
    ensures Deserialized(Serialized(days)) == days
  {
    if |days| > 0 {
      var texts := DayTexts(days);
      forall i | 0 <= i < |texts|
        ensures KeepPiece(texts[i]) == [texts[i]] && ',' !in texts[i]
      {
        ItoaClean(days[i]);
        KeepCleanPiece(texts[i]);
      }
      SplitJoin(texts, ',');
      TrimmedPiecesKeepsClean(texts);
      ParsedIntsOfTexts(days);
      assert Serialized(days) != "" by {
        if |texts| > 1 {
          assert Join(texts, ',') == texts[0] + [','] + Join(texts[1..], ',');
        }
      }
    }
  }

  /** The stored text is empty exactly for the empty list. */
  lemma SerializedEmpty(days: seq<int>)
    ensures Serialized(days) == "" <==> |days| == 0
  {
    if |days| > 0 {
      var texts := DayTexts(days);
      ItoaClean(days[0]);
      if |texts| > 1 {
        assert Join(texts, ',') == texts[0] + [','] + Join(texts[1..], ',');
      }
    }
  }

  /** Stored text in the form serializeRepeatDays writes is written back identically after a read. */
  lemma SerializedCanonical(days: seq<Int64>)
    ensures Serialized(Deserialized(Serialized(days))) == Serialized(days)
  {
    RepeatDaysRoundTrip(days);
  }

  /** What one piece of the stored text contributes: its value when, trimmed, it is a non-blank integer. */
  function PieceValue(part: string): seq<Int64>
  {
    var t := TrimSpace(part);
    if t != "" && Atoi(t).ok then [Atoi(t).value] else []
  }

  /** The contributions of the pieces, in order: a reference reading, one piece at a time. */
  function PieceValues(parts: seq<string>): seq<Int64>
  {
    if |parts| == 0 then [] else PieceValues(parts[..|parts| - 1]) + PieceValue(parts[|parts| - 1])
  }

  /**
   * Blank and non-integer pieces are skipped and every other piece gives its
   * value in place, whatever its neighbours: "1,,3,abc,5" reads as [1, 3, 5].
   */
  lemma DeserializedPerPiece(s: string)
    ensures s != "" ==> Deserialized(s) == PieceValues(Split(s, ','))
  {
    TrimmedThenParsed(Split(s, ','));
  }

  lemma {:induction false} TrimmedThenParsed(parts: seq<string>)
    ensures ParsedInts(TrimmedPieces(parts)) == PieceValues(parts)
  {
    if |parts| > 0 {
      var init, last := parts[..|parts| - 1], parts[|parts| - 1];
      TrimmedThenParsed(init);
      var t := TrimSpace(last);
      if t != "" {
        ParsedIntsSnoc(TrimmedPieces(init), t);
      } else {
        assert TrimmedPieces(init) + [] == TrimmedPieces(init);
      }
    }
  }

  lemma ParsedIntsSnoc(pieces: seq<string>, p: string)
    ensures ParsedInts(pieces + [p]) == ParsedInts(pieces) + (if Atoi(p).ok then [Atoi(p).value] else [])
  {
    assert (pieces + [p])[..|pieces|] == pieces;
  }
}
