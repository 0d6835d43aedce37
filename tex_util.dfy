/** The LaTeX document writer of the rendering helpers, the temporary names
    of `tex_to_img`, and the formula buffers `TeX` and `AutoTeX`. A file
    written by `write_tex` is modelled as the sequence of strings passed to
    its `write` calls, in order. */
module TexUtil {
  import opened Wrappers
  import opened Seqs
  import opened PyPath

  /** The `text` argument of `write_tex`: one formula, or a list of them. */
  datatype FormulaArg = Single(formula: string) | Many(formulas: seq<string>)

  /** `if isinstance(text, str): text = [text]`. */
  function Formulas(arg: FormulaArg): seq<string>
  {
    match arg
    case Single(f) => [f]
    case Many(fs) => fs
  }

  const DocumentClass := "\\documentclass{minimal}\n"
  const BeginDocument := "\\begin{document}\n"
  const EndDocument := "\\end{document}\n"
  const EquationOpen := "\\begin{equation} "
  const EquationClose := " \\end{equation}\n"

  /** A formula written inline, `$f$`, on a line of its own. */
  function InlineLine(f: string): string
  {
    "$" + f + "$\n"
  }

  /** A formula written as a numbered equation, on a line of its own. */
  function EquationLine(f: string): string
  {
    EquationOpen + f + EquationClose
  }

  function Equations(fs: seq<string>): seq<string>
  {
    seq(|fs|, i requires 0 <= i < |fs| => EquationLine(fs[i]))
  }

  /** The writes of `write_tex`: the header, then a single inline formula
      when there is exactly one, and one equation per formula otherwise,
      then the footer. */
  function Document(fs: seq<string>): seq<string>
  {
    [DocumentClass, BeginDocument]
    + (if |fs| == 1 then [InlineLine(fs[0])] else Equations(fs))
    + [EndDocument]
  }

  /** `write_tex(tex_path, text)`: the loop writes one line per formula. */
  method WriteTex(text: FormulaArg) returns (writes: seq<string>)
    ensures writes == Document(Formulas(text))
    ensures text.Single? ==> writes == Document([text.formula])
  {
    var fs := Formulas(text);
    writes := [DocumentClass, BeginDocument];
    if |fs| == 1 {
      writes := writes + [InlineLine(fs[0])];
    } else {
      for i := 0 to |fs|
        invariant writes == [DocumentClass, BeginDocument] + Equations(fs[..i])
      {
        assert Equations(fs[..i + 1]) == Equations(fs[..i]) + [EquationLine(fs[i])];
        writes := writes + [EquationLine(fs[i])];
      }
      assert fs[..|fs|] == fs;
    }
    writes := writes + [EndDocument];
  }

  /** One formula: the body is the single line `$f$`. Any other number of
      formulas, none included: one equation line per formula, in order. */
  lemma DocumentLayout(fs: seq<string>)
    ensures |fs| == 1 ==> Document(fs) == [DocumentClass, BeginDocument, "$" + fs[0] + "$\n", EndDocument]
    ensures |fs| != 1 ==> |Document(fs)| == |fs| + 3
    ensures |fs| != 1 ==> forall i :: 0 <= i < |fs| ==> Document(fs)[i + 2] == "\\begin{equation} " + fs[i] + " \\end{equation}\n"
    ensures |fs| == 0 ==> Document(fs) == [DocumentClass, BeginDocument, EndDocument]
    ensures Document(fs)[..2] == [DocumentClass, BeginDocument] && Document(fs)[|Document(fs)| - 1] == EndDocument
  {
  }

  function StripInline(line: string): string
  {
    if |line| >= 3 then line[1..|line| - 2] else line
  }

  function StripEquation(line: string): string
  {
    if |line| >= |EquationOpen| + |EquationClose| then line[|EquationOpen|..|line| - |EquationClose|] else line
  }

  /** The formulas of a document written by `write_tex`, read back from the
      lines between `\begin{document}` and `\end{document}`. */
  function ReadFormulas(doc: seq<string>): seq<string>
  {
    var body := if |doc| >= 3 then doc[2..|doc| - 1] else [];
    if |body| == 1 then [StripInline(body[0])]
    else seq(|body|, i requires 0 <= i < |body| => StripEquation(body[i]))
  }

  /** Nothing is lost in writing: the formulas can be read back from the
      document, whatever their number. */
  lemma DocumentRoundTrip(fs: seq<string>)
    ensures ReadFormulas(Document(fs)) == fs
  {
    var doc := Document(fs);
    var body := doc[2..|doc| - 1];
    if |fs| == 1 {
      assert body == [InlineLine(fs[0])];
      assert InlineLine(fs[0])[1..|InlineLine(fs[0])| - 2] == fs[0];
    } else {
      assert body == Equations(fs);
      forall i | 0 <= i < |fs|
        ensures StripEquation(body[i]) == fs[i]
      {
        var line := EquationLine(fs[i]);
        assert body[i] == line;
        assert line[|EquationOpen|..|line| - |EquationClose|] == fs[i];
      }
    }
  }

  /** What `tex_to_img` prepares before calling the typesetting tools: the
      temporary file names and the document written to the `.tex` one. */
  datatype TexJob = TexJob(files: TempFiles, tex: seq<string>)

  /** `tex_to_img(text, output_path, ...)` up to the tool calls. The output
      path is taken as already made absolute. */
  function TexToImgJob(text: FormulaArg, outputPath: string): (r: TexJob)
    ensures r.files.tex == TempBase(outputPath) + ".tex"
    ensures r.files.dvi == TempBase(outputPath) + ".dvi"
    ensures r.files.png == TempBase(outputPath) + ".png"
    ensures ReadFormulas(r.tex) == Formulas(text)
  {
    DocumentRoundTrip(Formulas(text));
    TexJob(TempNames(outputPath), Document(Formulas(text)))
  }

  /** The argument of `TeX.add`: None, a list, or any other single value. */
  datatype AddArg = NoText | TextList(items: seq<string>) | TextItem(item: string)

  function AddedBy(arg: AddArg): seq<string>
  {
    match arg
    case NoText => []
    case TextList(items) => items
    case TextItem(x) => [x]
  }

  /** A growing list of formulas that can be written out as one document. */
  class TeX {
    var text: seq<string>

    constructor (arg: AddArg)
      ensures text == AddedBy(arg)
    {
      text := [];
      new;
      Add(arg);
    }

    /** None is ignored, a list extends the formulas, anything else is
        appended; the formulas already held keep their order. */
    method Add(arg: AddArg)
      modifies this
      ensures text == old(text) + AddedBy(arg)
    {
      match arg
      case NoText =>
      case TextList(items) => text := text + items;
      case TextItem(x) => text := text + [x];
    }

    /** `to_tex`: no file when no formula is held, else the document of all
        formulas held. */
    method ToTex() returns (written: Option<seq<string>>)
      ensures text == [] ==> written == None
      ensures text != [] ==> written.Some? && ReadFormulas(written.value) == text
      ensures text != [] ==> written == Some(Document(text))
    {
      if text == [] {
        return None;
      }
      var w := WriteTex(Many(text));
      DocumentRoundTrip(text);
      written := Some(w);
    }
  }

  /** A callback of `AutoTeX`, known by name; calling it with the buffer is
      recorded in the buffer's call log. */
  type Callback = string

  datatype Call = Call(callback: Callback, batch: seq<string>)

  /** The calls `for function in fs: function(batch)` makes, in order. */
  function CallsOf(fs: seq<Callback>, batch: seq<string>): (r: seq<Call>)
    ensures |r| == |fs|
  {
    seq(|fs|, i requires 0 <= i < |fs| => Call(fs[i], batch))
  }

  /** The calls made for each released batch, batch `i` going to the
      callbacks `fss[i]` in force when it was released. */
  function CallLog(fss: seq<seq<Callback>>, batches: seq<seq<string>>): (r: seq<seq<Call>>)
    requires |fss| == |batches|
    ensures |r| == |batches|
    ensures forall i :: 0 <= i < |r| ==> |r[i]| == |fss[i]|
  {
    seq(|batches|, i requires 0 <= i < |batches| => CallsOf(fss[i], batches[i]))
  }

  /** A buffer of formulas that hands every `length` formulas to its
      callbacks and starts again empty. */
  class AutoTeX {
    const length: nat
    var text: seq<string>
    var f: seq<Callback>
    var calls: seq<Call>
    /** Every formula added so far, in order. */
    ghost var added: seq<string>
    /** Every batch released so far, in order. */
    ghost var released: seq<seq<string>>
    /** The callbacks each released batch was handed to. */
    ghost var usedFs: seq<seq<Callback>>

    /** The released batches followed by the buffer are exactly the
        formulas added, and the call log is every released batch handed to
        its callbacks, batch after batch. */
    ghost predicate Coherent()
      reads this
    {
      length >= 1 && |text| <= length && Concat(released) + text == added &&
      |usedFs| == |released| && calls == Concat(CallLog(usedFs, released))
    }

    /** Besides, the buffer never rests full. */
    ghost predicate Valid()
      reads this
    {
      Coherent() && |text| < length
    }

    constructor (length: nat, callbacks: seq<Callback>)
      requires length >= 1
      ensures Valid()
      ensures this.length == length && f == callbacks
      ensures text == [] && calls == [] && added == [] && released == [] && usedFs == []
    {
      this.length := length;
      f := callbacks;
      text := [];
      calls := [];
      added := [];
      released := [];
      usedFs := [];
    }

    /** `release(*args)`: on an empty buffer nothing happens. Otherwise
        callbacks given explicitly replace the stored ones, every callback
        is called with the buffer in order, and the buffer is emptied. */
    method Release(args: seq<Callback>)
      requires Coherent()
      modifies this
      ensures Valid()
      ensures added == old(added)
      ensures old(text) == [] ==> text == [] && f == old(f) && calls == old(calls) && released == old(released) && usedFs == old(usedFs)
      ensures old(text) != [] ==> text == [] && released == old(released) + [old(text)] && usedFs == old(usedFs) + [f]
      ensures old(text) != [] ==> f == (if args != [] then args else old(f))
      ensures old(text) != [] ==> calls == old(calls) + CallsOf(f, old(text))
    {
      if text == [] {
        return;
      }
      if args != [] {
        f := args;
      }
      var fs := f;
      ghost var log := CallLog(usedFs, released);
      var batch := text;
      CallEach(fs, batch);
      ConcatAppend(released, batch);
      assert CallLog(usedFs + [fs], released + [batch]) == log + [CallsOf(fs, batch)];
      ConcatAppend(log, CallsOf(fs, batch));
      released := released + [batch];
      usedFs := usedFs + [fs];
      text := [];
      assert Concat(released) + text == Concat(released);
    }

    /** The loop `for function in self.f: function(self.text)`: each
        callback in turn is called with the batch. */
    method CallEach(fs: seq<Callback>, batch: seq<string>)
      modifies this`calls
      ensures calls == old(calls) + CallsOf(fs, batch)
    {
      for i := 0 to |fs|
        invariant calls == old(calls) + CallsOf(fs[..i], batch)
      {
        assert CallsOf(fs[..i + 1], batch) == CallsOf(fs[..i], batch) + [Call(fs[i], batch)];
        calls := calls + [Call(fs[i], batch)];
      }
      assert fs[..|fs|] == fs;
    }

    /** `_add(text, *args)`: appends one formula and releases the buffer
        when it reaches `length` formulas. */
    method AddOne(formula: string, args: seq<Callback>)
      requires Valid()
      modifies this
      ensures Valid()
      ensures added == old(added) + [formula]
      ensures |old(text)| + 1 < length ==> text == old(text) + [formula] && f == old(f) && calls == old(calls) && released == old(released) && usedFs == old(usedFs)
      ensures |old(text)| + 1 == length ==> text == [] && released == old(released) + [old(text) + [formula]] && usedFs == old(usedFs) + [f]
      ensures |old(text)| + 1 == length ==> f == (if args != [] then args else old(f))
      ensures |old(text)| + 1 == length ==> calls == old(calls) + CallsOf(f, old(text) + [formula])
      ensures old(released) <= released && old(usedFs) <= usedFs
      ensures forall i :: |old(released)| <= i < |released| ==> |released[i]| == length && usedFs[i] == (if args != [] then args else old(f))
      ensures |released| == |old(released)| ==> f == old(f) && calls == old(calls) && text == old(text) + [formula]
      ensures |released| > |old(released)| ==> f == (if args != [] then args else old(f))
    {
      text := text + [formula];
      added := added + [formula];
      if |text| == length {
        Release(args);
      }
    }

    /** `add(text, *args)`: adds one formula or each formula of a list in
        turn. Every batch released on the way holds exactly `length`
        formulas, and those batches followed by the new buffer are the old
        buffer followed by the formulas added. Each new batch goes to the
        callbacks `args` when some are given and to the stored ones
        otherwise, and the call log grows by exactly those calls. */
    method Add(arg: FormulaArg, args: seq<Callback>)
      requires Valid()
      modifies this
      ensures Valid()
      ensures added == old(added) + Formulas(arg)
      ensures old(released) <= released && old(usedFs) <= usedFs
      ensures forall i :: |old(released)| <= i < |released| ==> |released[i]| == length
      ensures Concat(released[|old(released)|..]) + text == old(text) + Formulas(arg)
      ensures forall i :: |old(released)| <= i < |usedFs| ==> usedFs[i] == (if args != [] then args else old(f))
      ensures calls == old(calls) + Concat(CallLog(usedFs[|old(released)|..], released[|old(released)|..]))
      ensures |released| == |old(released)| ==> f == old(f) && calls == old(calls) && text == old(text) + Formulas(arg)
      ensures |released| > |old(released)| ==> f == (if args != [] then args else old(f))
    {
      var fs := Formulas(arg);
      AddEach(fs, args);
      assert released == old(released) + released[|old(released)|..];
      NewBatchesCover(old(released), released[|old(released)|..], old(text), text, fs);
      NewCalls(old(usedFs), old(released), usedFs, released);
    }

    /** The loop of `add` over the formulas `fs`, one `_add` each. */
    method AddEach(fs: seq<string>, args: seq<Callback>)
      requires Valid()
      modifies this
      ensures Valid()
      ensures added == old(added) + fs
      ensures old(released) <= released && old(usedFs) <= usedFs
      ensures forall i :: |old(released)| <= i < |released| ==> |released[i]| == length
      ensures forall i :: |old(released)| <= i < |usedFs| ==> usedFs[i] == (if args != [] then args else old(f))
      ensures |released| == |old(released)| ==> f == old(f) && calls == old(calls) && text == old(text) + fs
      ensures |released| > |old(released)| ==> f == (if args != [] then args else old(f))
    {
      ghost var pick := if args != [] then args else f;
      for k := 0 to |fs|
        invariant Valid()
        invariant added == old(added) + fs[..k]
        invariant old(released) <= released && old(usedFs) <= usedFs
        invariant forall i :: |old(released)| <= i < |released| ==> |released[i]| == length && usedFs[i] == pick
        invariant |released| == |old(released)| ==> f == old(f) && calls == old(calls) && text == old(text) + fs[..k]
        invariant |released| > |old(released)| ==> f == pick
      {
        assert fs[..k + 1] == fs[..k] + [fs[k]];
        AddOne(fs[k], args);
      }
      assert fs[..|fs|] == fs;
    }

    /** `to_tex`, inherited from `TeX`. */
    method ToTex() returns (written: Option<seq<string>>)
      ensures text == [] ==> written == None
      ensures text != [] ==> written == Some(Document(text))
    {
      if text == [] {
        return None;
      }
      var w := WriteTex(Many(text));
      written := Some(w);
    }
  }

  /** The batches released after `released0`, followed by the buffer, are
      the old buffer followed by the new formulas. */
  lemma NewBatchesCover<T>(released0: seq<seq<T>>, newBatches: seq<seq<T>>, oldText: seq<T>, text: seq<T>, fs: seq<T>)
    requires Concat(released0 + newBatches) + text == Concat(released0) + oldText + fs
    ensures Concat(newBatches) + text == oldText + fs
  {
    ConcatSplit(released0, newBatches);
    var prefix := Concat(released0);
    assert prefix + Concat(newBatches) + text == prefix + (Concat(newBatches) + text);
    assert prefix + oldText + fs == prefix + (oldText + fs);
    assert (prefix + (Concat(newBatches) + text))[|prefix|..] == Concat(newBatches) + text;
    assert (prefix + (oldText + fs))[|prefix|..] == oldText + fs;
  }

  /** The log of the batches released after `released0` is what the call
      log grew by. */
  lemma NewCalls(usedFs0: seq<seq<Callback>>, released0: seq<seq<string>>, usedFs: seq<seq<Callback>>, released: seq<seq<string>>)
    requires |usedFs0| == |released0| && |usedFs| == |released|
    requires usedFs0 <= usedFs && released0 <= released
    ensures Concat(CallLog(usedFs, released)) ==
      Concat(CallLog(usedFs0, released0)) + Concat(CallLog(usedFs[|released0|..], released[|released0|..]))
  {
    var k := |released0|;
    var log := CallLog(usedFs, released);
    assert log[..k] == CallLog(usedFs0, released0);
    assert log[k..] == CallLog(usedFs[k..], released[k..]);
    assert log == log[..k] + log[k..];
    ConcatSplit(log[..k], log[k..]);
  }

  lemma {:induction false} ConcatSplit<T>(a: seq<seq<T>>, b: seq<seq<T>>)
    ensures Concat(a + b) == Concat(a) + Concat(b)
    decreases |b|
  {
    if |b| == 0 {
      assert a + b == a;
    } else {
      var b' := b[..|b| - 1];
      assert (a + b)[..|a + b| - 1] == a + b';
      ConcatSplit(a, b');
    }
  }
}
