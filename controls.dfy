/** The pure decisions behind `_insertControls` (ImgSlides.js:152-183): which
    buttons the `data-controls` attribute asks for, and how the glyph name in
    `data-arrows` is turned into a left-pointing and a right-pointing name. */
module Controls {
  import opened Wrappers
  import opened Strings

  /** The `data-arrows` default set in `connectedCallback`. */
  /** Equal to the literal "singleLeftPointingAngleQuotationMark"; written as a
      concatenation on purpose, so that the proofs can find "Left" in it cheaply. */
  const DefaultArrows: string := "single" + "Left" + "PointingAngleQuotationMark"

  /** The glyph name for the left arrow: the first "Right" becomes "Left",
      then the first "right" becomes "left". */
  function LeftName(arrows: string): (r: string)
    ensures !Contains(arrows, "Right") && !Contains(arrows, "right") ==> r == arrows
  {
    ReplaceFirst(ReplaceFirst(arrows, "Right", "Left"), "right", "left")
  }

  /** The glyph name for the right arrow: the first "Left" becomes "Right",
      then the first "left" becomes "right". */
  function RightName(arrows: string): (r: string)
    ensures !Contains(arrows, "Left") && !Contains(arrows, "left") ==> r == arrows
  {
    ReplaceFirst(ReplaceFirst(arrows, "Left", "Right"), "left", "right")
  }

  /** Mirroring a left name to the right and back gives the name again, when
      "Left" is written once in capitals and the lower-case words do not interfere. */
  lemma {:induction false} MirrorRoundTrip(arrows: string)
    requires Contains(arrows, "Left") && !Contains(arrows, "right")
    requires !Contains(ReplaceFirst(arrows, "Left", "Right"), "left")
    requires IndexOf(ReplaceFirst(arrows, "Left", "Right"), "Right") == IndexOf(arrows, "Left")
    ensures RightName(arrows) == ReplaceFirst(arrows, "Left", "Right")
    ensures LeftName(RightName(arrows)) == arrows
  {
    ReplaceFirstUndo(arrows, "Left", "Right");
  }

  /** A name that says "Left" once, with no 'R', 'h' or 'f' around it (so no
      "Right", "right" or "left"), is its own left name, and its right name
      says "Right" in that place. */
  lemma {:induction false} MirrorLeftPointing(pre: string, post: string)
    requires 'L' !in pre
    requires 'R' !in pre + post && 'h' !in pre + post && 'f' !in pre + post
    ensures LeftName(pre + "Left" + post) == pre + "Left" + post
    ensures RightName(pre + "Left" + post) == pre + "Right" + post
  {
    var name := pre + "Left" + post;
    AbsentChar(name, "Right", 'R');
    AbsentChar(name, "right", 'h');
    assert name[..|pre|] == pre;
    assert name[|pre|..|pre| + 4] == "Left";
    FirstOccurrence(name, "Left", |pre|);
    var mirrored := ReplaceFirst(name, "Left", "Right");
    assert mirrored == pre + "Right" + post by {
      assert mirrored[..|pre|] == pre;
      assert mirrored[|pre|..|pre| + 5] == "Right";
      assert mirrored[|pre| + 5..] == post;
      assert mirrored == mirrored[..|pre|] + mirrored[|pre|..|pre| + 5] + mirrored[|pre| + 5..];
    }
    AbsentChar(mirrored, "left", 'f');
  }

  /** A name that says "Right" once, with no 'L', 'h' or 'f' around it and no
      'R' before it, mirrors to "Left" in that place and is its own right name. */
  lemma {:induction false} MirrorRightPointing(pre: string, post: string)
    requires 'R' !in pre
    requires 'L' !in pre + post && 'h' !in pre + post && 'f' !in pre + post
    ensures LeftName(pre + "Right" + post) == pre + "Left" + post
    ensures RightName(pre + "Right" + post) == pre + "Right" + post
  {
    var name := pre + "Right" + post;
    AbsentChar(name, "Left", 'L');
    AbsentChar(name, "left", 'f');
    assert name[..|pre|] == pre;
    assert name[|pre|..|pre| + 5] == "Right";
    FirstOccurrence(name, "Right", |pre|);
    var mirrored := ReplaceFirst(name, "Right", "Left");
    assert mirrored == pre + "Left" + post by {
      assert mirrored[..|pre|] == pre;
      assert mirrored[|pre|..|pre| + 4] == "Left";
      assert mirrored[|pre| + 4..] == post;
      assert mirrored == mirrored[..|pre|] + mirrored[|pre|..|pre| + 4] + mirrored[|pre| + 4..];
    }
    AbsentChar(mirrored, "right", 'h');
  }

  /** A name that says "left" once, with no 'l' before it and no 'L', 'R' or
      'h' around it (so no "Left", "Right" or "right"), is its own left name,
      and its right name says "right" in that place. */
  lemma {:induction false} MirrorLowerLeftPointing(pre: string, post: string)
    requires 'l' !in pre
    requires 'L' !in pre + post && 'R' !in pre + post && 'h' !in pre + post
    ensures LeftName(pre + "left" + post) == pre + "left" + post
    ensures RightName(pre + "left" + post) == pre + "right" + post
  {
    var name := pre + "left" + post;
    AbsentChar(name, "Right", 'R');
    AbsentChar(name, "right", 'h');
    AbsentChar(name, "Left", 'L');
    assert name[..|pre|] == pre;
    assert name[|pre|..|pre| + 4] == "left";
    FirstOccurrence(name, "left", |pre|);
    var mirrored := ReplaceFirst(name, "left", "right");
    assert mirrored == pre + "right" + post by {
      assert mirrored[..|pre|] == pre;
      assert mirrored[|pre|..|pre| + 5] == "right";
      assert mirrored[|pre| + 5..] == post;
      assert mirrored == mirrored[..|pre|] + mirrored[|pre|..|pre| + 5] + mirrored[|pre| + 5..];
    }
  }

  /** A name that says "right" once, with no 'r' before it and no 'L', 'R' or
      'f' around it (so no "Left", "Right" or "left"), mirrors to "left" in
      that place and is its own right name. */
  lemma {:induction false} MirrorLowerRightPointing(pre: string, post: string)
    requires 'r' !in pre
    requires 'L' !in pre + post && 'R' !in pre + post && 'f' !in pre + post
    ensures LeftName(pre + "right" + post) == pre + "left" + post
    ensures RightName(pre + "right" + post) == pre + "right" + post
  {
    var name := pre + "right" + post;
    AbsentChar(name, "Right", 'R');
    AbsentChar(name, "Left", 'L');
    AbsentChar(name, "left", 'f');
    assert name[..|pre|] == pre;
    assert name[|pre|..|pre| + 5] == "right";
    FirstOccurrence(name, "right", |pre|);
    var mirrored := ReplaceFirst(name, "right", "left");
    assert mirrored == pre + "left" + post by {
      assert mirrored[..|pre|] == pre;
      assert mirrored[|pre|..|pre| + 4] == "left";
      assert mirrored[|pre| + 4..] == post;
      assert mirrored == mirrored[..|pre|] + mirrored[|pre|..|pre| + 4] + mirrored[|pre| + 4..];
    }
  }

  /** Two glyph names that start with the lower-case direction. */
  const LeftwardsArrow: string := "left" + "wardsArrow"
  const RightwardsArrow: string := "right" + "wardsArrow"

  /** `leftwardsArrow` mirrors through the second replace of line 171. */
  lemma LowerLeftArrowName()
    ensures RightName(LeftwardsArrow) == "right" + "wardsArrow"
  {
    var post := "wardsArrow";
    assert 'L' !in post && 'R' !in post && 'h' !in post;
    assert "" + "left" + post == LeftwardsArrow;
    MirrorLowerLeftPointing("", post);
  }

  /** `rightwardsArrow` mirrors through the second replace of line 170. */
  lemma LowerRightArrowName()
    ensures LeftName(RightwardsArrow) == "left" + "wardsArrow"
  {
    var post := "wardsArrow";
    assert 'L' !in post && 'R' !in post && 'f' !in post;
    assert "" + "right" + post == RightwardsArrow;
    MirrorLowerRightPointing("", post);
  }

  /** The default glyph points left and mirrors to its right-pointing twin. */
  lemma DefaultArrowNames()
    ensures LeftName(DefaultArrows) == DefaultArrows
    ensures RightName(DefaultArrows) == "single" + "Right" + "PointingAngleQuotationMark"
  {
    var around := "single" + "PointingAngleQuotationMark";
    assert 'R' !in around && 'h' !in around && 'f' !in around;
    MirrorLeftPointing("single", "PointingAngleQuotationMark");
  }

  /** What `connectedCallback` and `_insertControls` do with `data-controls`:
      no panel, a panel with some of the three kinds of button, or a
      TypeError thrown when the attribute is absent (`undefined.includes`). */
  datatype ControlsOutcome =
    | NoPanel
    | Panel(play: bool, pause: bool, arrows: bool)
    | ThrowsTypeError

  function SelectControls(controls: Option<string>): (r: ControlsOutcome)
    ensures r.ThrowsTypeError? <==> controls.None?
    ensures r.NoPanel? <==> controls == Some("undefined") || controls == Some("false")
    ensures r.Panel? ==> (r.play <==> controls.value == "true" || Contains(controls.value, "play"))
    ensures r.Panel? ==> (r.pause <==> controls.value == "true" || Contains(controls.value, "pause"))
    ensures r.Panel? ==> (r.arrows <==> Contains(controls.value, "arrows"))
  {
    match controls
    case None => ThrowsTypeError
    case Some(c) =>
      if c == "undefined" || c == "false" then NoPanel
      else Panel(c == "true" || Contains(c, "play"),
                 c == "true" || Contains(c, "pause"),
                 Contains(c, "arrows"))
  }

  /** `data-controls="true"` gives the play and pause buttons but no arrows. */
  lemma TrueOmitsArrows()
    ensures SelectControls(Some("true")) == Panel(true, true, false)
  {
  }

  /** Listing one kind of button selects exactly that kind. */
  lemma SingleKinds()
    ensures SelectControls(Some("play")) == Panel(true, false, false)
    ensures SelectControls(Some("pause")) == Panel(false, true, false)
    ensures SelectControls(Some("arrows")) == Panel(false, false, true)
  {
    AbsentChar("pause", "play", 'l');
    assert OccursAt("pause", "pause", 0);
  }

  /** The documented words of `data-controls`. */
  datatype ControlWord = PlayWord | PauseWord | ArrowsWord

  function Word(w: ControlWord): string
  {
    match w
    case PlayWord => "play"
    case PauseWord => "pause"
    case ArrowsWord => "arrows"
  }

  /** Words joined by single spaces, as in `data-controls="play arrows"`. */
  function Join(ws: seq<ControlWord>): string
  {
    if ws == [] then ""
    else if |ws| == 1 then Word(ws[0])
    else Word(ws[0]) + " " + Join(ws[1..])
  }

  /** A character in none of the words and not a space is not in their join. */
  lemma {:induction false} CharNotJoined(ws: seq<ControlWord>, c: char)
    requires c != ' '
    requires forall w :: w in ws ==> c !in Word(w)
    ensures c !in Join(ws)
  {
    if |ws| > 1 {
      CharNotJoined(ws[1..], c);
    }
  }

  /** A list's first word occurs at the start of the join. */
  lemma FirstWordJoined(ws: seq<ControlWord>)
    requires ws != []
    ensures OccursAt(Join(ws), Word(ws[0]), 0)
  {
    var head := Word(ws[0]);
    assert OccursAt(head, head, 0);
    if |ws| > 1 {
      OccursInConcat(" " + Join(ws[1..]), head, head, 0);
      assert Join(ws) == head + (" " + Join(ws[1..]));
    }
  }

  /** An occurrence in the join of the rest of a list is one in the whole
      join, shifted past the first word and its space. */
  lemma LaterWordJoined(ws: seq<ControlWord>, p: string, k: int)
    requires |ws| > 1 && OccursAt(Join(ws[1..]), p, k)
    ensures OccursAt(Join(ws), p, |Word(ws[0])| + 1 + k)
  {
    OccursInConcat(Word(ws[0]) + " ", Join(ws[1..]), p, k);
  }

  /** Every joined word occurs in the join; `j` is one place where it does. */
  lemma {:induction false} WordJoined(ws: seq<ControlWord>, w: ControlWord) returns (j: int)
    requires w in ws
    ensures OccursAt(Join(ws), Word(w), j)
  {
    if ws[0] == w {
      FirstWordJoined(ws);
      j := 0;
    } else {
      assert w in ws[1..];
      var k := WordJoined(ws[1..], w);
      LaterWordJoined(ws, Word(w), k);
      j := |Word(ws[0])| + 1 + k;
    }
  }

  /** A word is included in the join exactly when it is listed: each word
      has a letter ('y', 'u', 'w') that the other two lack. */
  lemma JoinIncludes(ws: seq<ControlWord>, w: ControlWord)
    ensures Contains(Join(ws), Word(w)) <==> w in ws
  {
    var c := Join(ws);
    if w in ws {
      var j := WordJoined(ws, w);
      ContainsIff(c, Word(w));
    } else {
      var mark := match w case PlayWord => 'y' case PauseWord => 'u' case ArrowsWord => 'w';
      assert mark in Word(w);
      assert forall v :: v in ws ==> mark !in Word(v) by {
        forall v | v in ws ensures mark !in Word(v) {
          assert v != w;
        }
      }
      CharNotJoined(ws, mark);
      AbsentChar(c, Word(w), mark);
    }
  }

  /** A join of the documented words is none of "undefined", "false" and
      "true": it lacks their 'd', 'f' and 't'. */
  lemma JoinNotKeyword(ws: seq<ControlWord>)
    ensures Join(ws) != "undefined" && Join(ws) != "false" && Join(ws) != "true"
  {
    CharNotJoined(ws, 'd');
    CharNotJoined(ws, 'f');
    CharNotJoined(ws, 't');
    assert "undefined"[2] == 'd' && "false"[0] == 'f' && "true"[0] == 't';
  }

  /** For any list of the documented words, each button is created exactly
      when its word is listed. */
  lemma WordsSelectTheirButtons(ws: seq<ControlWord>)
    ensures SelectControls(Some(Join(ws))) == Panel(PlayWord in ws, PauseWord in ws, ArrowsWord in ws)
  {
    JoinNotKeyword(ws);
    JoinIncludes(ws, PlayWord);
    JoinIncludes(ws, PauseWord);
    JoinIncludes(ws, ArrowsWord);
  }

  /** An absent attribute throws; "false" and "undefined" give no panel. */
  lemma AbsentOrDisabled()
    ensures SelectControls(None) == ThrowsTypeError
    ensures SelectControls(Some("false")) == NoPanel
    ensures SelectControls(Some("undefined")) == NoPanel
  {
  }
}
