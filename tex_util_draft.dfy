/** The older draft of the LaTeX helpers: its `write_tex` writes every
    formula inline, whatever their number, and its `tex_to_img` derives the
    same temporary names as the newer version. */
module TexUtilDraft {
  import opened PyPath
  import TexUtil

  function InlineLines(fs: seq<string>): seq<string>
  {
    seq(|fs|, i requires 0 <= i < |fs| => TexUtil.InlineLine(fs[i]))
  }

  /** The writes of the draft `write_tex`: the header, one `$f$` line per
      formula in order, the footer. */
  function Document(fs: seq<string>): seq<string>
  {
    [TexUtil.DocumentClass, TexUtil.BeginDocument] + InlineLines(fs) + [TexUtil.EndDocument]
  }

  /** `write_tex(tex_path, text)`, one `write` per formula. */
  method WriteTex(text: TexUtil.FormulaArg) returns (writes: seq<string>)
    ensures writes == Document(TexUtil.Formulas(text))
    ensures text.Single? ==> writes == Document([text.formula])
  {
    var fs := TexUtil.Formulas(text);
    writes := [TexUtil.DocumentClass, TexUtil.BeginDocument];
    for i := 0 to |fs|
      invariant writes == [TexUtil.DocumentClass, TexUtil.BeginDocument] + InlineLines(fs[..i])
    {
      assert InlineLines(fs[..i + 1]) == InlineLines(fs[..i]) + [TexUtil.InlineLine(fs[i])];
      writes := writes + ["$" + fs[i] + "$\n"];
    }
    assert fs[..|fs|] == fs;
    writes := writes + [TexUtil.EndDocument];
  }

  /** One `$f$` line per formula, in input order, between the header and
      the footer; with no formula only the header and the footer remain. */
  lemma DocumentLayout(fs: seq<string>)
    ensures |Document(fs)| == |fs| + 3
    ensures Document(fs)[..2] == ["\\documentclass{minimal}\n", "\\begin{document}\n"]
    ensures Document(fs)[|fs| + 2] == "\\end{document}\n"
    ensures forall i :: 0 <= i < |fs| ==> Document(fs)[i + 2] == "$" + fs[i] + "$\n"
    ensures fs == [] ==> Document(fs) == ["\\documentclass{minimal}\n", "\\begin{document}\n", "\\end{document}\n"]
  {
  }

  /** The formulas of a draft document, read back from its inline lines. */
  function ReadFormulas(doc: seq<string>): seq<string>
  {
    var body := if |doc| >= 3 then doc[2..|doc| - 1] else [];
    seq(|body|, i requires 0 <= i < |body| => TexUtil.StripInline(body[i]))
  }

  /** The draft document loses no formula and adds none. */
  lemma DocumentRoundTrip(fs: seq<string>)
    ensures ReadFormulas(Document(fs)) == fs
  {
    var doc := Document(fs);
    var body := doc[2..|doc| - 1];
    assert body == InlineLines(fs);
    forall i | 0 <= i < |fs|
      ensures TexUtil.StripInline(body[i]) == fs[i]
    {
      var line := TexUtil.InlineLine(fs[i]);
      assert body[i] == line;
      assert line[1..|line| - 2] == fs[i];
    }
  }

  /** The draft `tex_to_img` up to the tool calls: the temporary names and
      the document written to the `.tex` file. */
  function TexToImgJob(text: TexUtil.FormulaArg, outputPath: string): (r: TexUtil.TexJob)
    ensures r.files.tex == TempBase(outputPath) + ".tex"
    ensures r.files.dvi == TempBase(outputPath) + ".dvi"
    ensures r.files.png == TempBase(outputPath) + ".png"
    ensures ReadFormulas(r.tex) == TexUtil.Formulas(text)
  {
    DocumentRoundTrip(TexUtil.Formulas(text));
    TexUtil.TexJob(TempNames(outputPath), Document(TexUtil.Formulas(text)))
  }
}
