/** The translation widget: an exact-match French phrasebook per vernacular
    language, a fixed placeholder on a miss, and a most-recent-first history
    of every translation request. */
module Translation {

  /** The languages the target selector offers. */
  const VernacularLanguages: seq<string> := ["Fang", "Punu", "Nzebi", "Teke", "Kota"]

  /** Target language -> French phrase -> translation. Punu and Kota have no table. */
  const Translations: map<string, map<string, string>> := map[
    "Fang" := map["Comment ça va ?" := "Mbolo wane ?"],
    "Nzebi" := map["Tu vas bien ?" := "Nge ndji ?"],
    "Teke" := map["Ça va ?" := "Ina ngayi ?"]
  ]

  const Unavailable: string := "[Traduction indisponible]"

  /** Every request is labelled as coming from French. */
  const SourceLabel: string := "Français"

  /** One history row: `{ from, to, source, result }`. */
  datatype Entry = Entry(from: string, to: string, source: string, result: string)

  /** What the user had selected and typed when pressing "Traduire". */
  datatype Request = Request(toLang: string, inputText: string)

  /** The stored translation of `phrase` into `lang`, when there is one. */
  predicate HasTranslation(lang: string, phrase: string)
  {
    lang in Translations && phrase in Translations[lang]
  }

  /** `translations[toLang]?.[inputText] || "[Traduction indisponible]"`: the
      stored value when it is truthy (a non-empty string), the placeholder otherwise. */
  function Translate(toLang: string, inputText: string): (r: string)
    ensures r != ""
    ensures HasTranslation(toLang, inputText) && Translations[toLang][inputText] != ""
            ==> r == Translations[toLang][inputText]
    ensures !HasTranslation(toLang, inputText) ==> r == Unavailable
  {
    if HasTranslation(toLang, inputText) && Translations[toLang][inputText] != "" then
      Translations[toLang][inputText]
    else
      Unavailable
  }

  /** The history row one request produces. */
  function EntryFor(req: Request): Entry
  {
    Entry(SourceLabel, req.toLang, req.inputText, Translate(req.toLang, req.inputText))
  }

  /** The history after the given requests, oldest first in `reqs`: each one
      is put in front of the rows before it. */
  function HistoryAfter(reqs: seq<Request>): (h: seq<Entry>)
    ensures |h| == |reqs|
  {
    if reqs == [] then []
    else [EntryFor(reqs[|reqs| - 1])] + HistoryAfter(reqs[..|reqs| - 1])
  }

  /** After N requests, index i holds the row of request N - i (counting
      requests from 1), so the k-th request sits at index N - k: newest first,
      nothing dropped, nothing merged. */
  lemma {:induction false} HistoryOrder(reqs: seq<Request>)
    ensures forall i :: 0 <= i < |reqs| ==>
      HistoryAfter(reqs)[i] == EntryFor(reqs[|reqs| - 1 - i])
  {
    if reqs != [] {
      var init := reqs[..|reqs| - 1];
      HistoryOrder(init);
      var h := HistoryAfter(reqs);
      assert h == [EntryFor(reqs[|reqs| - 1])] + HistoryAfter(init);
      forall i | 1 <= i < |reqs|
        ensures HistoryAfter(reqs)[i] == EntryFor(reqs[|reqs| - 1 - i])
      {
        assert h[i] == HistoryAfter(init)[i - 1];
        assert init[|init| - 1 - (i - 1)] == reqs[|reqs| - 1 - i];
      }
    }
  }

  /** The selector offers exactly two languages without a table, Punu and
      Kota, and for them every phrase misses. */
  lemma UnsupportedLanguagesMiss(phrase: string)
    ensures forall lang :: lang in VernacularLanguages && lang !in Translations <==> lang == "Punu" || lang == "Kota"
    ensures forall lang :: lang in VernacularLanguages && lang !in Translations ==> Translate(lang, phrase) == Unavailable
    ensures Translate("Punu", phrase) == Unavailable
    ensures Translate("Kota", phrase) == Unavailable
  {
    assert "Punu" !in Translations && "Kota" !in Translations;
    assert "Fang" in Translations && "Nzebi" in Translations && "Teke" in Translations;
  }

  /** A stored translation is returned exactly, and a miss is the only way to
      get the placeholder: no table stores the placeholder itself. */
  lemma TranslateIsLookup(toLang: string, inputText: string)
    ensures Translate(toLang, inputText) != Unavailable <==> HasTranslation(toLang, inputText)
    ensures HasTranslation(toLang, inputText) ==>
      Translate(toLang, inputText) == Translations[toLang][inputText]
  {
    if HasTranslation(toLang, inputText) {
      assert toLang == "Fang" || toLang == "Nzebi" || toLang == "Teke";
    }
  }

  /** Matching is exact: no trimming, no case folding, and the empty input misses. */
  lemma ExactMatchOnly()
    ensures Translate("Fang", "Comment ça va ?") == "Mbolo wane ?"
    ensures Translate("Fang", " Comment ça va ?") == Unavailable
    ensures Translate("Fang", "comment ça va ?") == Unavailable
    ensures Translate("Fang", "") == Unavailable
    ensures Translate("Nzebi", "Comment ça va ?") == Unavailable
  {
    assert " Comment ça va ?" != "Comment ça va ?";
    assert "comment ça va ?" != "Comment ça va ?";
  }

  /** The translation widget's state. */
  class TranslationSection {
    var toLang: string
    var inputText: string
    var translatedText: string
    var history: seq<Entry>
    /** The requests made so far, oldest first. */
    ghost var requests: seq<Request>

    /** The history holds one row per request, newest first, and the
        displayed text is the newest row's result. */
    ghost predicate Valid()
      reads this
    {
      && history == HistoryAfter(requests)
      && (history == [] ==> translatedText == "")
      && (history != [] ==> translatedText == history[0].result)
    }

    constructor ()
      ensures Valid()
      ensures toLang == "Fang" && inputText == "" && translatedText == ""
      ensures history == [] && requests == []
    {
      toLang, inputText, translatedText := "Fang", "", "";
      history, requests := [], [];
    }

    /** The target selector's `onChange`. */
    method SelectLanguage(lang: string)
      requires Valid()
      modifies this
      ensures Valid() && toLang == lang
      ensures inputText == old(inputText) && translatedText == old(translatedText)
      ensures history == old(history) && requests == old(requests)
    {
      toLang := lang;
    }

    /** The text field's `onChange`. */
    method SetInputText(text: string)
      requires Valid()
      modifies this
      ensures Valid() && inputText == text
      ensures toLang == old(toLang) && translatedText == old(translatedText)
      ensures history == old(history) && requests == old(requests)
    {
      inputText := text;
    }

    /** `handleTranslate`: look the phrase up, show the result and put a new
        row in front of the history. */
    method HandleTranslate()
      requires Valid()
      modifies this
      ensures Valid()
      ensures toLang == old(toLang) && inputText == old(inputText)
      ensures translatedText == Translate(toLang, inputText)
      ensures history == [Entry(SourceLabel, toLang, inputText, translatedText)] + old(history)
      ensures requests == old(requests) + [Request(toLang, inputText)]
    {
      var translated := Translate(toLang, inputText);
      translatedText := translated;
      history := [Entry(SourceLabel, toLang, inputText, translated)] + history;
      requests := requests + [Request(toLang, inputText)];
      assert requests[..|requests| - 1] == old(requests);
    }
  }

  /** Two requests, Nzebi then Fang: the Fang row comes first. */
  method TwoRequests() returns (history: seq<Entry>)
    ensures history == [
      Entry("Français", "Fang", "Comment ça va ?", "Mbolo wane ?"),
      Entry("Français", "Nzebi", "Tu vas bien ?", "Nge ndji ?")
    ]
  {
    var w := new TranslationSection();
    w.SelectLanguage("Nzebi");
    w.SetInputText("Tu vas bien ?");
    w.HandleTranslate();
    assert w.translatedText == "Nge ndji ?";
    w.SelectLanguage("Fang");
    w.SetInputText("Comment ça va ?");
    w.HandleTranslate();
    history := w.history;
  }
}
