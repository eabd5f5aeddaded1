/**
 * Course codes of the timetable: the display label "CODE : Intitulé" that replaces a known code
 * (remplacer_code_matiere) and the background colour of a cell (couleur_matiere).
 */
module Subjects {
  import opened Results
  import opened Text

  /** matiere_map: course code to course title. */
  const Labels: map<string, string> := map[
    "UTC501" := "Maths",
    "UTC502" := "OS",
    "UTC503" := "Programmation",
    "UTC504" := "SI et BD",
    "UTC505" := "R\U{E9}seaux",
    "GDN100" := "Gestion"
  ]

  /** matiere_colors: course code to cell colour. */
  const Colours: map<string, string> := map[
    "UTC501" := "#FFD700",
    "UTC502" := "#87CEFA",
    "UTC503" := "#90EE90",
    "UTC504" := "#FFB6C1",
    "UTC505" := "#FFA07A",
    "GDN100" := "#D3D3D3"
  ]

  /** The default colour, for empty, unknown and non-course cells. */
  const White := "#FFFFFF"

  /** The separator couleur_matiere splits on to get the code back from a label. */
  const LabelSeparator := " :"

  /** Both tables have the same six codes, each six characters long without spaces. */
  lemma CodeShape(c: string)
    ensures c in Labels <==> c in Colours
    ensures c in Labels ==> |c| == 6 && forall j :: 0 <= j < 6 ==> !IsSpace(c[j])
  {
  }

  /**
   * remplacer_code_matiere on str(code): the stripped code, followed by " : " and the title
   * when the stripped code is a known one.
   */
  function Relabel(code: string): (r: string)
    ensures StartsWith(r, Strip(code))
    ensures r == Strip(code) <==> Strip(code) !in Labels
    ensures Strip(code) in Labels ==> r[|Strip(code)|..] == " : " + Labels[Strip(code)]
  {
    var c := Strip(code);
    if c in Labels then c + " : " + Labels[c] else c
  }

  /**
   * couleur_matiere: White for None; otherwise the colour of the code found before the first
   * " :" once stripped, White when that code is unknown.
   */
  function Colour(code: Option<string>): (r: string)
    ensures code.None? ==> r == White
    ensures r == White || r in Colours.Values
  {
    match code
    case None => White
    case Some(text) =>
      var c := Strip(Before(text, LabelSeparator));
      if c in Colours then Colours[c] else White
  }

  /** The part before " :" of a space-free p followed by something that starts with " :" is p. */
  lemma BeforeSeparator(p: string, t: string)
    requires forall j :: 0 <= j < |p| ==> p[j] != ' '
    requires StartsWith(t, LabelSeparator)
    ensures Before(p + t, LabelSeparator) == p
  {
    var s := p + t;
    assert s[|p|..] == t;
    assert forall j :: 0 <= j < |p| ==> s[j..][0] == p[j];
  }

  /** A string without " :" in it is its own part before " :". */
  lemma BeforeWithoutSeparator(s: string)
    requires !Contains(s, LabelSeparator)
    ensures Before(s, LabelSeparator) == s
  {
    var r := Before(s, LabelSeparator);
    if |r| < |s| {
      ContainsAt(s, LabelSeparator);
      assert s[|r|..][..2] == s[|r|..|r| + 2];
      assert OccursAt(s, LabelSeparator, |r|);
    }
  }

  /** The colour of a known code's label is the code's colour: UTC501 becomes #FFD700, and so on. */
  lemma ColourOfRelabel(code: string)
    requires Strip(code) in Labels
    ensures Colour(Some(Relabel(code))) == Colours[Strip(code)]
  {
    var c := Strip(code);
    CodeShape(c);
    BeforeSeparator(c, " : " + Labels[c]);
    assert c + " : " + Labels[c] == c + (" : " + Labels[c]);
    StripTrimmed(c);
  }

  /** An unknown code without " :" in it keeps its stripped text and is painted White. */
  lemma UnknownIsWhite(code: string)
    requires Strip(code) !in Labels && !Contains(Strip(code), LabelSeparator)
    ensures Relabel(code) == Strip(code)
    ensures Colour(Some(Relabel(code))) == White
  {
    var c := Strip(code);
    BeforeWithoutSeparator(c);
    StripIdempotent(code);
    CodeShape(c);
  }

  /** Relabelling a label changes nothing: a label is stripped already and is no code. */
  lemma RelabelIdempotent(code: string)
    ensures Relabel(Relabel(code)) == Relabel(code)
  {
    var c := Strip(code);
    StripIdempotent(code);
    if c in Labels {
      CodeShape(c);
      var r := Relabel(code);
      var title := Labels[c];
      assert |title| > 0 && !IsSpace(title[|title| - 1]);
      assert r[0] == c[0] && r[|r| - 1] == title[|title| - 1];
      StripTrimmed(r);
      CodeShape(r);
    }
  }
}
