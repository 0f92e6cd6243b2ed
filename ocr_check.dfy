/** The acceptance rule of `test_handwriting_sample_extraction` in
    tests/test_handwriting_ocr.py: whitespace normalisation with
    `" ".join(s.split())`, the exact match, the key-phrase fallback and the
    report of missing phrases. The extractor is an oracle. */
module OcrCheck {
  import opened Text

  /** Python's `str.isspace` for a single character. */
  predicate IsPySpace(c: char)
  {
    c == ' ' || ('\t' <= c <= '\r') || ('\U{1c}' <= c <= '\U{1f}') || c == '\U{85}' || c == '\U{a0}' ||
    c == '\U{1680}' || ('\U{2000}' <= c <= '\U{200a}') || c == '\U{2028}' || c == '\U{2029}' ||
    c == '\U{202f}' || c == '\U{205f}' || c == '\U{3000}'
  }

  /** A word as `split()` returns it: non-empty and free of whitespace. */
  predicate IsWord(w: string)
  {
    w != [] && forall k :: 0 <= k < |w| ==> !IsPySpace(w[k])
  }

  /** Length of the word at the start of `s`: up to the first whitespace. */
  function WordEnd(s: string): (k: nat)
    ensures k <= |s|
    ensures k < |s| ==> IsPySpace(s[k])
    ensures forall j :: 0 <= j < k ==> !IsPySpace(s[j])
  {
    if s == [] || IsPySpace(s[0]) then 0 else 1 + WordEnd(s[1..])
  }

  /** `s.split()`: the maximal runs of non-whitespace, in order. */
  function Words(s: string): (ws: seq<string>)
    ensures forall i :: 0 <= i < |ws| ==> IsWord(ws[i])
    decreases |s|
  {
    if s == [] then []
    else if IsPySpace(s[0]) then Words(s[1..])
    else
      var k := WordEnd(s);
      [s[..k]] + Words(s[k..])
  }

  /** `" ".join(ws)`. */
  function JoinSpace(ws: seq<string>): string
  {
    if ws == [] then ""
    else if |ws| == 1 then ws[0]
    else ws[0] + " " + JoinSpace(ws[1..])
  }

  /** `" ".join(s.split())`. */
  function Normalize(s: string): string
  {
    JoinSpace(Words(s))
  }

  /** A word followed by nothing or by whitespace splits off as one word. */
  lemma {:induction false} WordsOfWordThen(w: string, r: string)
    requires IsWord(w)
    requires r == [] || IsPySpace(r[0])
    ensures Words(w + r) == [w] + Words(r)
  {
    var s := w + r;
    assert s[0] == w[0];
    assert forall j :: 0 <= j < |w| ==> s[j] == w[j];
    WordEndAt(s, |w|);
    assert s[..|w|] == w;
    assert s[|w|..] == r;
  }

  lemma {:induction false} WordEndAt(s: string, k: nat)
    requires k <= |s|
    requires k < |s| ==> IsPySpace(s[k])
    requires forall j :: 0 <= j < k ==> !IsPySpace(s[j])
    ensures WordEnd(s) == k
    decreases k
  {
    if k > 0 {
      WordEndAt(s[1..], k - 1);
    }
  }

  /** Splitting what was joined gives the words back. */
  lemma {:induction false} WordsOfJoin(ws: seq<string>)
    requires forall i :: 0 <= i < |ws| ==> IsWord(ws[i])
    ensures Words(JoinSpace(ws)) == ws
  {
    if ws == [] {
    } else if |ws| == 1 {
      WordsOfWordThen(ws[0], "");
      assert ws[0] + "" == ws[0];
    } else {
      var rest := JoinSpace(ws[1..]);
      WordsOfJoin(ws[1..]);
      assert ws[0] + " " + rest == ws[0] + (" " + rest);
      WordsOfWordThen(ws[0], " " + rest);
      assert (" " + rest)[1..] == rest;
    }
  }

  /** Normalising twice gives the same text as normalising once. */
  lemma NormalizeIdempotent(s: string)
    ensures Normalize(Normalize(s)) == Normalize(s)
  {
    WordsOfJoin(Words(s));
  }

  /** A normalised text: no whitespace at either end, and each whitespace
      character is a single space between two non-space characters. */
  predicate IsNormal(r: string)
  {
    forall i :: 0 <= i < |r| && IsPySpace(r[i]) ==>
      r[i] == ' ' && 0 < i < |r| - 1 && !IsPySpace(r[i - 1]) && !IsPySpace(r[i + 1])
  }

  lemma {:induction false} JoinIsNormal(ws: seq<string>)
    requires forall i :: 0 <= i < |ws| ==> IsWord(ws[i])
    ensures IsNormal(JoinSpace(ws))
    ensures ws != [] ==> JoinSpace(ws) != [] && !IsPySpace(JoinSpace(ws)[0])
  {
    if |ws| > 1 {
      var w, rest := ws[0], JoinSpace(ws[1..]);
      JoinIsNormal(ws[1..]);
      var r := w + " " + rest;
      assert forall j :: 0 <= j < |w| ==> r[j] == w[j] && !IsPySpace(r[j]);
      forall i | 0 <= i < |r| && IsPySpace(r[i])
        ensures r[i] == ' ' && 0 < i < |r| - 1 && !IsPySpace(r[i - 1]) && !IsPySpace(r[i + 1])
      {
        if i == |w| {
          assert r[i - 1] == w[|w| - 1];
          assert r[i + 1] == rest[0];
        } else {
          assert r[i] == rest[i - |w| - 1];
          assert r[i - 1] == (if i - 1 == |w| then ' ' else rest[i - |w| - 2]);
          assert r[i + 1] == rest[i - |w|];
        }
      }
    }
  }

  /** Normalisation collapses every whitespace run to one space and trims
      both ends. */
  lemma NormalizeCollapses(s: string)
    ensures IsNormal(Normalize(s))
  {
    JoinIsNormal(Words(s));
  }

  /** A text already in that form is its own normalisation. */
  lemma {:induction false} NormalIsFixed(r: string)
    requires IsNormal(r)
    ensures Normalize(r) == r
    decreases |r|
  {
    if r != [] {
      var k := WordEnd(r);
      assert k > 0;
      if k == |r| {
        assert r[..k] == r && r[k..] == [];
        assert Words(r) == [r];
      } else {
        var t := r[k + 1..];
        assert r[k + 1] == t[0];
        forall i | 0 <= i < |t| && IsPySpace(t[i])
          ensures t[i] == ' ' && 0 < i < |t| - 1 && !IsPySpace(t[i - 1]) && !IsPySpace(t[i + 1])
        {
          assert t[i] == r[k + 1 + i];
        }
        NormalIsFixed(t);
        assert r[k..][1..] == t;
        var ws := [r[..k]] + Words(t);
        assert Words(r) == ws;
        assert Words(t) != [];
        assert |ws| > 1 && ws[1..] == Words(t);
        assert JoinSpace(ws) == r[..k] + " " + t;
        assert r == r[..k] + " " + t;
      }
    }
  }

  /** The reference text of the test. */
  const ExpectedText: string :=
    "My name is Erin Fish. I am taking this course to improve my handwriting " +
    "so I can enjoy writing in my journals again. As it stands now I find my " +
    "handwriting to be ununiformed and unattractive. I would like my freehand " +
    "to flow much more smoothly and as effortlessly as possible."

  /** The phrases whose presence accepts an inexact extraction. */
  const KeyPhrases: seq<string> := [
    "My name is Erin Fish",
    "taking this course",
    "improve my handwriting",
    "journals again",
    "ununiformed and unattractive",
    "freehand to flow",
    "smoothly and as effortlessly"
  ]

  /** `[p for p in phrases if p not in text]`. */
  function MissingPhrases(phrases: seq<string>, text: string): (r: seq<string>)
    ensures forall p :: p in r ==> p in phrases && !Contains(text, p)
    ensures forall p :: p in phrases && !Contains(text, p) ==> p in r
    ensures |r| <= |phrases|
  {
    if phrases == [] then []
    else if Contains(text, phrases[0]) then MissingPhrases(phrases[1..], text)
    else [phrases[0]] + MissingPhrases(phrases[1..], text)
  }

  /** `all(phrase in text for phrase in phrases)`. */
  predicate AllPhrasesFound(phrases: seq<string>, text: string)
  {
    forall i :: 0 <= i < |phrases| ==> Contains(text, phrases[i])
  }

  /** The phrases reported missing are none exactly when all were found. */
  lemma {:induction false} MissingIffNotAll(phrases: seq<string>, text: string)
    ensures MissingPhrases(phrases, text) == [] <==> AllPhrasesFound(phrases, text)
  {
    var m := MissingPhrases(phrases, text);
    if m == [] {
      forall i | 0 <= i < |phrases| ensures Contains(text, phrases[i]) {
        assert phrases[i] in phrases;
      }
    } else {
      assert m[0] in m;
    }
  }

  /** The missing phrases keep the order of the list: filtering a list
      made of two parts filters each part in turn. */
  lemma {:induction false} MissingInOrder(a: seq<string>, b: seq<string>, text: string)
    ensures MissingPhrases(a + b, text) == MissingPhrases(a, text) + MissingPhrases(b, text)
  {
    if a == [] {
      assert a + b == b;
    } else {
      assert (a + b)[0] == a[0];
      assert (a + b)[1..] == a[1..] + b;
      MissingInOrder(a[1..], b, text);
    }
  }

  /** What `extract_text_with_smolvlm` does: raise, or return a text. */
  datatype Extraction = Raised(message: string) | Extracted(text: string)

  /** How the test ends. */
  datatype Outcome =
    | ImageMissing                           // the image file does not exist
    | ExtractionFailed                       // the extractor raised
    | NothingExtracted                       // it returned an empty text
    | ExactMatch                             // equal after normalisation
    | PhrasesFound                           // every key phrase is in the raw text
    | PhrasesMissing(missing: seq<string>)   // the key phrases not found, in order

  /** `test_handwriting_sample_extraction`: `imageExists` is
      `os.path.exists(image_path)` and `extract` the extractor's behaviour;
      `passed` is the value the test returns. */
  method TestHandwritingSampleExtraction(imageExists: bool, extract: Extraction)
    returns (passed: bool, outcome: Outcome)
    ensures passed <==> outcome.ExactMatch? || outcome.PhrasesFound?
    // a missing image fails before any extraction
    ensures !imageExists <==> outcome == ImageMissing
    ensures imageExists && extract.Raised? ==> outcome == ExtractionFailed
    ensures imageExists && extract == Extracted("") ==> outcome == NothingExtracted
    ensures imageExists && extract.Extracted? && extract.text != "" ==>
      var text := extract.text;
      (Normalize(text) == Normalize(ExpectedText) ==> outcome == ExactMatch) &&
      (Normalize(text) != Normalize(ExpectedText) ==>
        (passed <==> AllPhrasesFound(KeyPhrases, text)) &&
        (!passed ==> outcome == PhrasesMissing(MissingPhrases(KeyPhrases, text)) && outcome.missing != []))
  {
    if !imageExists {
      return false, ImageMissing;
    }
    match extract {
      case Raised(_) =>
        return false, ExtractionFailed;
      case Extracted(extracted) =>
        if extracted == "" {
          return false, NothingExtracted;
        }
        var extractedNormalized := Normalize(extracted);
        var expectedNormalized := Normalize(ExpectedText);
        if extractedNormalized == expectedNormalized {
          return true, ExactMatch;
        }
        var allPhrasesFound := AllPhrasesFound(KeyPhrases, extracted);
        if allPhrasesFound {
          return true, PhrasesFound;
        }
        var missing := MissingPhrases(KeyPhrases, extracted);
        MissingIffNotAll(KeyPhrases, extracted);
        return false, PhrasesMissing(missing);
    }
  }
}
