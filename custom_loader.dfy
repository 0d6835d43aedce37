/** The MaskGAN word loader for a custom corpus: a file becomes a sequence
    of whitespace-separated words with every line break turned into an
    `<eos>` word; the training words are numbered by descending frequency,
    ties broken by the words themselves; every file becomes the ids of its
    words that the table knows. A file is given by its contents. */
module CustomLoader {
  import opened Wrappers
  import opened Seqs
  import opened PyStr

  const Eos: string := "<eos>"

  /** Text-mode reading with universal newlines: "\r\n" and a lone "\r"
      both read as "\n". */
  function DecodeNewlines(raw: string): (r: string)
    ensures '\r' !in r
    ensures '\r' !in raw ==> r == raw
    decreases |raw|
  {
    if |raw| == 0 then []
    else if raw[0] == '\r' then
      if |raw| > 1 && raw[1] == '\n' then "\n" + DecodeNewlines(raw[2..])
      else "\n" + DecodeNewlines(raw[1..])
    else [raw[0]] + DecodeNewlines(raw[1..])
  }

  /** `s.replace("\n", " <eos> ")`. */
  function ReplaceNewlines(s: string): string
  {
    if |s| == 0 then []
    else (if s[0] == '\n' then " <eos> " else [s[0]]) + ReplaceNewlines(s[1..])
  }

  lemma {:induction false} ReplaceNewlinesConcat(a: string, b: string)
    ensures ReplaceNewlines(a + b) == ReplaceNewlines(a) + ReplaceNewlines(b)
    decreases |a|
  {
    if |a| == 0 {
      assert a + b == b;
    } else {
      assert (a + b)[1..] == a[1..] + b;
      ReplaceNewlinesConcat(a[1..], b);
    }
  }

  /** The fallback branch of `_read_words`: the text with each newline
      replaced by " <eos> ", split on whitespace. */
  function ReadWords(text: string): seq<string>
  {
    SplitWhitespace(ReplaceNewlines(text))
  }

  /** `_read_words(filename)` on the raw bytes of the file, read as text. */
  function ReadFile(raw: string): seq<string>
  {
    ReadWords(DecodeNewlines(raw))
  }

  /** No word is empty and no word holds whitespace. */
  lemma ReadWordsWellFormed(text: string)
    ensures forall t :: t in ReadWords(text) ==> t != [] && NoSpace(t)
  {
    SplitWhitespaceWords(ReplaceNewlines(text));
  }

  lemma EosIsWord()
    ensures Eos != [] && NoSpace(Eos)
  {
  }

  lemma ReplaceOneNewline()
    ensures ReplaceNewlines("\n") == [' '] + Eos + [' ']
  {
    assert "\n"[1..] == [];
  }

  lemma ReplaceAtNewline(a: string, b: string)
    ensures ReplaceNewlines(a + "\n" + b) == ReplaceNewlines(a) + [' '] + (Eos + [' '] + ReplaceNewlines(b))
  {
    var ra := ReplaceNewlines(a);
    var rb := ReplaceNewlines(b);
    var rn := ReplaceNewlines("\n");
    ReplaceNewlinesConcat(a + "\n", b);
    ReplaceNewlinesConcat(a, "\n");
    ReplaceOneNewline();
    assert ReplaceNewlines(a + "\n" + b) == ra + rn + rb;
    assert ra + rn + rb == ra + [' '] + (Eos + [' '] + rb);
  }

  /** Every newline becomes a standalone `<eos>` word, whatever surrounds
      it. */
  lemma ReadWordsAtNewline(a: string, b: string)
    ensures ReadWords(a + "\n" + b) == ReadWords(a) + [Eos] + ReadWords(b)
  {
    var ra := ReplaceNewlines(a);
    var rb := ReplaceNewlines(b);
    ReplaceAtNewline(a, b);
    SplitAtSpace(ra, ' ', Eos + [' '] + rb);
    SplitAtSpace(Eos, ' ', rb);
    EosIsWord();
    SplitWord(Eos);
  }

  /** After the replacement no newline is left, and text without one is
      left alone. */
  lemma {:induction false} ReplaceNewlinesResult(s: string)
    ensures '\n' !in ReplaceNewlines(s)
    ensures '\n' !in s ==> ReplaceNewlines(s) == s
    decreases |s|
  {
    if |s| > 0 {
      ReplaceNewlinesResult(s[1..]);
      assert s == [s[0]] + s[1..];
    }
  }

  /** A line without a newline is split on whitespace alone. */
  lemma ReadWordsLine(text: string)
    requires '\n' !in text
    ensures ReadWords(text) == SplitWhitespace(text)
  {
    ReplaceNewlinesResult(text);
  }

  /** `Counter(data)[w]`. */
  function Count(data: seq<string>, w: string): nat
  {
    multiset(data)[w]
  }

  /** The sort key `(-count, word)`: `a` sorts before `b`. */
  predicate RankBefore(data: seq<string>, a: string, b: string)
  {
    Count(data, a) > Count(data, b) || (Count(data, a) == Count(data, b) && LexLess(a, b))
  }

  lemma RankIrreflexive(data: seq<string>, a: string)
    ensures !RankBefore(data, a, a)
  {
    LexLessIrreflexive(a);
  }

  lemma RankAsymmetric(data: seq<string>, a: string, b: string)
    requires RankBefore(data, a, b)
    ensures !RankBefore(data, b, a)
  {
    if Count(data, a) == Count(data, b) && LexLess(b, a) {
      LexLessTransitive(a, b, a);
      LexLessIrreflexive(a);
    }
  }

  lemma RankTransitive(data: seq<string>, a: string, b: string, c: string)
    requires RankBefore(data, a, b) && RankBefore(data, b, c)
    ensures RankBefore(data, a, c)
  {
    if Count(data, a) == Count(data, b) && Count(data, b) == Count(data, c) {
      LexLessTransitive(a, b, c);
    }
  }

  lemma RankTotal(data: seq<string>, a: string, b: string)
    requires a != b
    ensures RankBefore(data, a, b) || RankBefore(data, b, a)
  {
    LexLessTotal(a, b);
  }

  /** Strictly increasing in the sort key. */
  ghost predicate SortedByRank(data: seq<string>, s: seq<string>)
  {
    forall i, j :: 0 <= i < j < |s| ==> RankBefore(data, s[i], s[j])
  }

  function Insert(data: seq<string>, w: string, s: seq<string>): seq<string>
  {
    if |s| == 0 then [w]
    else if RankBefore(data, w, s[0]) then [w] + s
    else [s[0]] + Insert(data, w, s[1..])
  }

  /** `sorted(..., key=lambda x: (-x[1], x[0]))` on the words alone. */
  function SortByRank(data: seq<string>, ws: seq<string>): seq<string>
  {
    if |ws| == 0 then [] else Insert(data, ws[0], SortByRank(data, ws[1..]))
  }

  lemma {:induction false} InsertProperties(data: seq<string>, w: string, s: seq<string>)
    requires SortedByRank(data, s) && w !in s
    ensures multiset(Insert(data, w, s)) == multiset(s) + multiset{w}
    ensures SortedByRank(data, Insert(data, w, s))
    decreases |s|
  {
    if |s| == 0 {
    } else if RankBefore(data, w, s[0]) {
      var r := [w] + s;
      forall i, j | 0 <= i < j < |r|
        ensures RankBefore(data, r[i], r[j])
      {
        if i == 0 && j > 1 {
          RankTransitive(data, w, s[0], s[j - 1]);
        }
      }
    } else {
      var rest := Insert(data, w, s[1..]);
      assert s == [s[0]] + s[1..];
      InsertProperties(data, w, s[1..]);
      RankTotal(data, w, s[0]);
      var r := [s[0]] + rest;
      forall i, j | 0 <= i < j < |r|
        ensures RankBefore(data, r[i], r[j])
      {
        if i == 0 {
          assert r[j] in multiset(rest);
          assert r[j] == w || r[j] in s[1..];
        }
      }
    }
  }

  lemma {:induction false} SortByRankProperties(data: seq<string>, ws: seq<string>)
    requires Distinct(ws)
    ensures multiset(SortByRank(data, ws)) == multiset(ws)
    ensures SortedByRank(data, SortByRank(data, ws))
    decreases |ws|
  {
    if |ws| > 0 {
      var rest := ws[1..];
      assert ws == [ws[0]] + rest;
      assert Distinct(rest);
      SortByRankProperties(data, rest);
      assert ws[0] !in rest;
      assert ws[0] !in multiset(SortByRank(data, rest));
      InsertProperties(data, ws[0], SortByRank(data, rest));
    }
  }

  /** The words of `count_pairs`, in order. */
  function VocabWords(data: seq<string>): seq<string>
  {
    SortByRank(data, Dedup(data))
  }

  /** The vocabulary lists each training word once, in sort-key order. */
  lemma VocabWordsProperties(data: seq<string>)
    ensures Distinct(VocabWords(data))
    ensures forall w :: w in VocabWords(data) <==> w in data
    ensures SortedByRank(data, VocabWords(data))
  {
    var d := Dedup(data);
    DedupProperties(data);
    SortByRankProperties(data, d);
    var words := VocabWords(data);
    forall w
      ensures w in words <==> w in data
    {
      assert w in words <==> w in multiset(words);
      assert w in d <==> w in multiset(d);
    }
    forall i, j | 0 <= i < j < |words|
      ensures words[i] != words[j]
    {
      RankIrreflexive(data, words[i]);
    }
  }

  function IndexOf(s: seq<string>, w: string): (r: nat)
    requires w in s
    ensures r < |s| && s[r] == w
    ensures forall k :: 0 <= k < r ==> s[k] != w
  {
    if s[0] == w then 0 else IndexOf(s[1..], w) + 1
  }

  /** `dict(zip(words, range(len(words))))` on distinct words; with a
      repeated word this table keeps its first index where the dict keeps
      its last, and it is only used on distinct words. */
  function IdTable(words: seq<string>): map<string, nat>
  {
    map w | w in words :: IndexOf(words, w)
  }

  /** Over distinct words the table numbers the words by position. */
  lemma IdTableOfDistinct(words: seq<string>)
    requires Distinct(words)
    ensures IdTable(words).Keys == set w | w in words
    ensures |IdTable(words)| == |words|
    ensures forall i :: 0 <= i < |words| ==> IdTable(words)[words[i]] == i
  {
    var m := IdTable(words);
    forall i | 0 <= i < |words|
      ensures m[words[i]] == i
    {
      var k := IndexOf(words, words[i]);
      assert !(k < i);
    }
    DistinctCard(words);
  }

  lemma {:induction false} DistinctCard(words: seq<string>)
    requires Distinct(words)
    ensures |set w | w in words| == |words|
    decreases |words|
  {
    if |words| > 0 {
      var rest := words[1..];
      assert Distinct(rest);
      DistinctCard(rest);
      assert (set w | w in words) == (set w | w in rest) + {words[0]};
      assert words[0] !in rest;
    }
  }

  /** The `word_to_id` table of `build_vocab`: its keys are the training
      words. */
  function WordToId(data: seq<string>): (r: map<string, nat>)
    ensures forall w :: w in r <==> w in data
  {
    VocabWordsProperties(data);
    IdTable(VocabWords(data))
  }

  /** The table maps the n distinct training words one-to-one onto the ids
      0 .. n-1: the i-th word in sort-key order gets id i. */
  lemma WordToIdBijection(data: seq<string>)
    ensures |WordToId(data)| == |VocabWords(data)|
    ensures forall i :: 0 <= i < |VocabWords(data)| ==> WordToId(data)[VocabWords(data)[i]] == i
    ensures forall w :: w in WordToId(data) ==> WordToId(data)[w] < |WordToId(data)|
    ensures forall a, b :: a in WordToId(data) && b in WordToId(data) && WordToId(data)[a] == WordToId(data)[b] ==> a == b
  {
    var words := VocabWords(data);
    VocabWordsProperties(data);
    IdTableOfDistinct(words);
  }

  /** A word with a higher count gets a smaller id, and words with equal
      counts are numbered in string order. */
  lemma WordToIdOrder(data: seq<string>, a: string, b: string)
    requires a in data && b in data
    ensures WordToId(data)[a] < WordToId(data)[b] <==> RankBefore(data, a, b)
  {
    var words := VocabWords(data);
    VocabWordsProperties(data);
    IdTableOfDistinct(words);
    var i := IndexOf(words, a);
    var j := IndexOf(words, b);
    assert WordToId(data)[a] == i && WordToId(data)[b] == j;
    if RankBefore(data, a, b) && j <= i {
      if j == i {
        RankIrreflexive(data, a);
      } else {
        RankAsymmetric(data, a, b);
      }
    }
  }

  datatype LoadError =
    | EmptyTrainingData  // `zip(*count_pairs)` has nothing to unpack
    | MissingEos         // `word_to_id["<eos>"]` raises KeyError

  /** The table and the value left in `EOS_INDEX`. */
  datatype Vocab = Vocab(wordToId: map<string, nat>, eosIndex: nat)

  /** `build_vocab` on the training words. */
  function BuildVocabOf(data: seq<string>): (r: Result<Vocab, LoadError>)
    ensures r == Err(EmptyTrainingData) <==> data == []
    ensures r == Err(MissingEos) <==> data != [] && Eos !in data
    ensures r.Ok? ==> r.value.wordToId.Keys == set w | w in data
    ensures r.Ok? ==> Eos in r.value.wordToId && r.value.eosIndex == r.value.wordToId[Eos]
    ensures r.Ok? ==> r.value.wordToId == WordToId(data)
  {
    if data == [] then Err(EmptyTrainingData)
    else
      var m := WordToId(data);
      WordToIdBijection(data);
      if Eos !in m then Err(MissingEos)
      else Ok(Vocab(m, m[Eos]))
  }

  /** `build_vocab(filename)`. */
  function BuildVocab(trainRaw: string): Result<Vocab, LoadError>
  {
    BuildVocabOf(ReadFile(trainRaw))
  }

  /** A text with a line break holds the word `<eos>`. */
  lemma EosAtNewline(text: string, k: nat)
    requires k < |text| && text[k] == '\n'
    ensures Eos in ReadWords(text)
  {
    var x := text[..k];
    var y := text[k + 1..];
    assert text == x + "\n" + y;
    ReadWordsAtNewline(x, y);
    var before := ReadWords(x);
    assert (before + [Eos] + ReadWords(y))[|before|] == Eos;
  }

  /** A training file with a line break always yields a vocabulary. */
  lemma BuildVocabWithNewline(trainRaw: string)
    requires '\n' in DecodeNewlines(trainRaw)
    ensures BuildVocab(trainRaw).Ok?
  {
    var text := DecodeNewlines(trainRaw);
    var k :| 0 <= k < |text| && text[k] == '\n';
    EosAtNewline(text, k);
  }

  /** `[word_to_id[word] for word in data if word in word_to_id]`. */
  function WordIds(data: seq<string>, m: map<string, nat>): (r: seq<nat>)
    ensures |r| <= |data|
    ensures forall i :: 0 <= i < |r| ==> r[i] in m.Values
  {
    if |data| == 0 then []
    else (if data[0] in m then [m[data[0]]] else []) + WordIds(data[1..], m)
  }

  /** The conversion works word by word: a known word gives its id, an
      unknown word gives nothing. */
  lemma {:induction false} WordIdsConcat(a: seq<string>, b: seq<string>, m: map<string, nat>)
    ensures WordIds(a + b, m) == WordIds(a, m) + WordIds(b, m)
    decreases |a|
  {
    if |a| == 0 {
      assert a + b == b;
    } else {
      assert (a + b)[1..] == a[1..] + b;
      WordIdsConcat(a[1..], b, m);
    }
  }

  lemma WordIdsSingle(w: string, m: map<string, nat>)
    ensures WordIds([w], m) == if w in m then [m[w]] else []
  {
    assert [w][1..] == [];
  }

  /** When the table knows every word nothing is dropped, and the ids line
      up with the words. */
  lemma {:induction false} WordIdsAllKnown(data: seq<string>, m: map<string, nat>)
    requires forall w :: w in data ==> w in m
    ensures |WordIds(data, m)| == |data|
    ensures forall i :: 0 <= i < |data| ==> WordIds(data, m)[i] == m[data[i]]
    decreases |data|
  {
    if |data| > 0 {
      WordIdsAllKnown(data[1..], m);
      assert forall i :: 1 <= i < |data| ==> data[i] == data[1..][i - 1];
    }
  }

  /** The ids a vocabulary hands out are below its size. */
  lemma WordIdsBelowSize(trainData: seq<string>, data: seq<string>)
    ensures forall i :: 0 <= i < |WordIds(data, WordToId(trainData))| ==>
      WordIds(data, WordToId(trainData))[i] < |WordToId(trainData)|
  {
    WordToIdBijection(trainData);
  }

  /** `_file_to_word_ids(filename, word_to_id)`. */
  function FileToWordIds(raw: string, m: map<string, nat>): seq<nat>
  {
    WordIds(ReadFile(raw), m)
  }

  /** What `custom_raw_data` returns, with the id of `<eos>`. */
  datatype RawData = RawData(train: seq<nat>, valid: seq<nat>, test: seq<nat>, vocabulary: nat, eosIndex: nat)

  /** `custom_raw_data(train_path, valid_path, test_path)`: the training
      file gives the table, and all three files are converted with it. */
  function CustomRawData(trainRaw: string, validRaw: string, testRaw: string): (r: Result<RawData, LoadError>)
    ensures BuildVocab(trainRaw).Err? ==> r == Err(BuildVocab(trainRaw).error)
    ensures r.Ok? ==> BuildVocab(trainRaw).Ok? && r.value.vocabulary == |BuildVocab(trainRaw).value.wordToId|
    ensures r.Ok? ==> r.value.eosIndex == BuildVocab(trainRaw).value.eosIndex && r.value.eosIndex < r.value.vocabulary
    ensures r.Ok? ==> |r.value.train| == |ReadFile(trainRaw)|
    ensures r.Ok? ==> forall i :: 0 <= i < |r.value.train| ==> r.value.train[i] < r.value.vocabulary
    ensures r.Ok? ==> forall i :: 0 <= i < |r.value.valid| ==> r.value.valid[i] < r.value.vocabulary
    ensures r.Ok? ==> forall i :: 0 <= i < |r.value.test| ==> r.value.test[i] < r.value.vocabulary
    ensures r.Ok? ==> |r.value.valid| <= |ReadFile(validRaw)| && |r.value.test| <= |ReadFile(testRaw)|
    ensures r.Ok? ==> r.value.train == FileToWordIds(trainRaw, BuildVocab(trainRaw).value.wordToId)
    ensures r.Ok? ==> r.value.valid == FileToWordIds(validRaw, BuildVocab(trainRaw).value.wordToId)
    ensures r.Ok? ==> r.value.test == FileToWordIds(testRaw, BuildVocab(trainRaw).value.wordToId)
  {
    match BuildVocab(trainRaw)
    case Err(e) => Err(e)
    case Ok(vocab) =>
      var m := vocab.wordToId;
      var data := ReadFile(trainRaw);
      WordToIdBijection(data);
      WordIdsAllKnown(data, m);
      WordIdsBelowSize(data, data);
      WordIdsBelowSize(data, ReadFile(validRaw));
      WordIdsBelowSize(data, ReadFile(testRaw));
      Ok(RawData(FileToWordIds(trainRaw, m), FileToWordIds(validRaw, m), FileToWordIds(testRaw, m), |m|, vocab.eosIndex))
  }
}
