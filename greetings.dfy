/** What the two course pages share: the three course languages, the
    greeting entries of a language, and the slides built from them. */
module Greetings {

  /** The language selector's options. */
  datatype Language = Fang | Nzebi | Teke

  datatype Greeting = Greeting(french: string, translation: string, emoji: string)

  /** A language's display name and greeting list. */
  datatype LanguageInfo = LanguageInfo(name: string, greeting: seq<Greeting>)

  /** A slide, reduced to the table data it shows. */
  datatype Slide =
    | Welcome(headline: string)
    | Salutations(entries: seq<Greeting>, quiz: Language)
    | Vocabulary(entries: seq<Greeting>)
    | Pronunciation(entries: seq<Greeting>)
    | Workshop(entries: seq<Greeting>)
    | Numbers(words: seq<string>)
    | Exercises(oral: seq<Greeting>)

  /** `greeting[k]?.translation`, an absent entry rendering as nothing. */
  function TranslationAt(gs: seq<Greeting>, k: nat): string
  {
    if k < |gs| then gs[k].translation else ""
  }

  /** The numbers slide: the translations at positions 0 to 4. */
  function NumberWords(gs: seq<Greeting>): (words: seq<string>)
    ensures |words| == 5
  {
    [TranslationAt(gs, 0), TranslationAt(gs, 1), TranslationAt(gs, 2),
     TranslationAt(gs, 3), TranslationAt(gs, 4)]
  }

  /** With five greetings every number word is a real translation, the
      k-th greeting's for the number k + 1. */
  lemma NumberWordsDefined(gs: seq<Greeting>)
    requires |gs| == 5
    ensures forall k :: 0 <= k < 5 ==> NumberWords(gs)[k] == gs[k].translation
  {
  }

  /** `gs.slice(0, count)`: JavaScript clamps the end to the length. */
  function Slice(gs: seq<Greeting>, count: nat): (r: seq<Greeting>)
    ensures |r| == if count <= |gs| then count else |gs|
    ensures forall i :: 0 <= i < |r| ==> r[i] == gs[i]
  {
    if count <= |gs| then gs[..count] else gs
  }
}
