/** The comma-separated tag field shared by the candidate editor, the
    dashboard editor and the manual form
    (`value.split(",").map(tag => tag.trim()).filter(Boolean)`), and the
    submit check the dashboard editor and the manual form share, with the
    phonetic input they also share. */
module TagInput {
  import opened Common

  /** The tag limit every form and the API schemas enforce. */
  const MaxTags: nat := 4

  /** The phonetic input of the dashboard editor and the manual form:
      `value || null`; nothing is trimmed. */
  function PhoneticInput(value: string): (r: Option<string>)
    ensures r.None? <==> value == ""
    ensures r.Some? ==> r.value == value
  {
    if value == "" then None else Some(value)
  }

  /** `pieces.map(p => p.trim()).filter(Boolean)` */
  function CleanPieces(pieces: seq<string>): seq<string>
  {
    if pieces == [] then []
    else
      var t := Trim(pieces[0]);
      if t == "" then CleanPieces(pieces[1..]) else [t] + CleanPieces(pieces[1..])
  }

  /** The tags typed into a comma-separated field. */
  function ParseTags(value: string): seq<string>
  {
    CleanPieces(Split(value, ','))
  }

  /** A tag the parser can produce: non-empty, trimmed, comma-free. */
  predicate IsCleanTag(t: string)
  {
    t != "" && IsTrimmed(t) && ',' !in t
  }

  /** The field contents shown for a list of tags: `tags.join(", ")`. */
  function TagsField(tags: seq<string>): string
  {
    Join(tags, ", ")
  }

  const FieldsRequiredMessage: string := "Front and back of the flashcard are required"
  const MaxTagsMessage: string := "Maximum 4 tags are allowed"

  /** The message a submit is refused with, if any: blank front or back
      first, then too many tags. */
  function SubmitError(front: string, back: string, tags: seq<string>): Option<string>
  {
    if IsBlank(front) || IsBlank(back) then Some(FieldsRequiredMessage)
    else if |tags| > MaxTags then Some(MaxTagsMessage)
    else None
  }

  /** A submit passes exactly when front and back are not blank and there
      are at most four tags; a blank field is reported before the tags. */
  lemma SubmitErrorSpec(front: string, back: string, tags: seq<string>)
    ensures SubmitError(front, back, tags).None? <==> !IsBlank(front) && !IsBlank(back) && |tags| <= MaxTags
    ensures (IsBlank(front) || IsBlank(back)) ==> SubmitError(front, back, tags) == Some(FieldsRequiredMessage)
    ensures SubmitError(front, back, tags) == Some(MaxTagsMessage) <==>
        !IsBlank(front) && !IsBlank(back) && |tags| > MaxTags
  {
  }

  lemma {:induction false} CleanPiecesAreClean(pieces: seq<string>)
    requires forall i :: 0 <= i < |pieces| ==> ',' !in pieces[i]
    ensures |CleanPieces(pieces)| <= |pieces|
    ensures forall i :: 0 <= i < |CleanPieces(pieces)| ==> IsCleanTag(CleanPieces(pieces)[i])
  {
    if pieces != [] {
      CleanPiecesAreClean(pieces[1..]);
      var t := Trim(pieces[0]);
      TrimKeepsNoComma(pieces[0]);
      if t != "" {
        assert CleanPieces(pieces) == [t] + CleanPieces(pieces[1..]);
        assert IsCleanTag(t);
      }
    }
  }

  lemma TrimKeepsNoComma(s: string)
    requires ',' !in s
    ensures ',' !in Trim(s)
  {
    var r := Trim(s);
    forall i | 0 <= i < |r| ensures r[i] != ',' {
      assert r[i] in s;
    }
  }

  /** Every parsed tag is non-empty, trimmed and comma-free. */
  lemma ParsedTagsAreClean(value: string)
    ensures forall i :: 0 <= i < |ParseTags(value)| ==> IsCleanTag(ParseTags(value)[i])
  {
    CleanPiecesAreClean(Split(value, ','));
  }

  lemma SpacesHaveNoComma(sp: string)
    requires forall i :: 0 <= i < |sp| ==> IsSpace(sp[i])
    ensures ',' !in sp
  {
    forall i | 0 <= i < |sp| ensures sp[i] != ',' {
      assert IsSpace(sp[i]);
    }
  }

  lemma {:induction false} SplitAtFirst(a: string, b: string, sep: char)
    requires sep !in a
    ensures Split(a + [sep] + b, sep) == [a] + Split(b, sep)
  {
    var s := a + [sep] + b;
    assert s[|a|] == sep;
    var k := IndexOf(s, sep);
    assert k == |a|;
    assert s[..k] == a;
    assert s[k + 1..] == b;
  }

  lemma CleanCons(p: string, rest: seq<string>)
    ensures CleanPieces([p] + rest)
         == (if Trim(p) == "" then CleanPieces(rest) else [Trim(p)] + CleanPieces(rest))
  {
    assert ([p] + rest)[1..] == rest;
  }

  lemma CleanSingle(p: string)
    ensures CleanPieces([p]) == (if Trim(p) == "" then [] else [Trim(p)])
  {
    assert [p][1..] == [];
  }

  lemma NoCommaInSpacedTag(sp: string, t: string)
    requires forall i :: 0 <= i < |sp| ==> IsSpace(sp[i])
    requires IsCleanTag(t)
    ensures ',' !in sp + t
    ensures Trim(sp + t) == t
  {
    SpacesHaveNoComma(sp);
    TrimSpacedPrefix(sp, t);
  }

  lemma ParseSpacesOnly(sp: string)
    requires forall i :: 0 <= i < |sp| ==> IsSpace(sp[i])
    ensures CleanPieces(Split(sp, ',')) == []
  {
    SpacesHaveNoComma(sp);
    SplitWithoutSep(sp, ',');
    BlankIffAllSpace(sp);
    CleanSingle(sp);
  }

  lemma ParseSpacedTag(sp: string, t: string)
    requires forall i :: 0 <= i < |sp| ==> IsSpace(sp[i])
    requires IsCleanTag(t)
    ensures CleanPieces(Split(sp + t, ',')) == [t]
  {
    NoCommaInSpacedTag(sp, t);
    SplitWithoutSep(sp + t, ',');
    CleanSingle(sp + t);
  }

  /** The text of two or more tags after a run of spaces: the first tag,
      a comma, and the rest of the field behind one space. */
  lemma JoinShape(sp: string, tags: seq<string>)
    requires |tags| >= 2
    ensures sp + Join(tags, ", ") == (sp + tags[0]) + [','] + (" " + Join(tags[1..], ", "))
  {
    var j := Join(tags[1..], ", ");
    assert Join(tags, ", ") == tags[0] + ", " + j;
    assert ", " == [','] + " ";
    assert sp + (tags[0] + ", " + j) == (sp + tags[0]) + [','] + (" " + j);
  }

  /** One step of the round trip: the first tag, with the spaces before
      it, is the first clean piece, and the rest of the joined text starts
      with the space after the comma. */
  lemma ParseConsStep(sp: string, tags: seq<string>)
    requires |tags| >= 2
    requires forall i :: 0 <= i < |sp| ==> IsSpace(sp[i])
    requires IsCleanTag(tags[0])
    ensures CleanPieces(Split(sp + Join(tags, ", "), ','))
         == [tags[0]] + CleanPieces(Split(" " + Join(tags[1..], ", "), ','))
  {
    var a := sp + tags[0];
    var rest := " " + Join(tags[1..], ", ");
    JoinShape(sp, tags);
    NoCommaInSpacedTag(sp, tags[0]);
    SplitAtFirst(a, rest, ',');
    CleanCons(a, Split(rest, ','));
  }

  /** No tag or a single tag after a run of spaces. */
  lemma ParseShortJoin(sp: string, tags: seq<string>)
    requires |tags| <= 1
    requires forall i :: 0 <= i < |sp| ==> IsSpace(sp[i])
    requires forall i :: 0 <= i < |tags| ==> IsCleanTag(tags[i])
    ensures CleanPieces(Split(sp + Join(tags, ", "), ',')) == tags
  {
    if tags == [] {
      assert Join(tags, ", ") == "";
      AppendEmpty(sp);
      ParseSpacesOnly(sp);
    } else {
      assert Join(tags, ", ") == tags[0];
      ParseSpacedTag(sp, tags[0]);
    }
  }

  /** The part of a field behind a comma: one space, then clean tags
      joined with ", ". */
  lemma {:induction false} ParseSpacedTail(tags: seq<string>)
    requires forall i :: 0 <= i < |tags| ==> IsCleanTag(tags[i])
    ensures CleanPieces(Split(" " + Join(tags, ", "), ',')) == tags
    decreases |tags|
  {
    assert forall i :: 0 <= i < |" "| ==> IsSpace(" "[i]);
    if |tags| <= 1 {
      ParseShortJoin(" ", tags);
    } else {
      ParseConsStep(" ", tags);
      CleanTail(tags);
      ParseSpacedTail(tags[1..]);
      HeadTail(tags);
    }
  }

  lemma CleanTail(tags: seq<string>)
    requires tags != []
    requires forall i :: 0 <= i < |tags| ==> IsCleanTag(tags[i])
    ensures forall i :: 0 <= i < |tags[1..]| ==> IsCleanTag(tags[1..][i])
  {
    forall i | 0 <= i < |tags[1..]| ensures IsCleanTag(tags[1..][i]) {
      assert tags[1..][i] == tags[i + 1];
    }
  }

  /** Joining clean tags with ", " and parsing the text again gives back
      the same list: opening an editor and saving without typing keeps
      the tags. */
  lemma ParseFieldRoundTrip(tags: seq<string>)
    requires forall i :: 0 <= i < |tags| ==> IsCleanTag(tags[i])
    ensures ParseTags(TagsField(tags)) == tags
  {
    assert "" + Join(tags, ", ") == Join(tags, ", ");
    if |tags| <= 1 {
      ParseShortJoin("", tags);
    } else {
      ParseConsStep("", tags);
      CleanTail(tags);
      ParseSpacedTail(tags[1..]);
      HeadTail(tags);
    }
  }

  /** Parsing a field shown by `TagsField` reproduces what it shows, so
      the manual form's displayed text is stable under re-parsing. */
  lemma ParseIsIdempotent(value: string)
    ensures ParseTags(TagsField(ParseTags(value))) == ParseTags(value)
  {
    ParsedTagsAreClean(value);
    ParseFieldRoundTrip(ParseTags(value));
  }
}
