/** The lesson page with the five-slide carousel (`app/Cours/page.tsx`). Its
    mobile menu toggle only shows or hides the language selector. */
module CapitalCoursPage {

  import opened Greetings
  import Carousel

  /** `languageData`, without the colours and the quiz component. */
  function LanguageData(lang: Language): (info: LanguageInfo)
    ensures |info.greeting| == 5
  {
    match lang
    case Fang => LanguageInfo("Fang", [
      Greeting("Bonjour (formel)", "Mbolo", "👔"),
      Greeting("Bonjour (familier)", "Mbolo bé", "😊"),
      Greeting("Comment ça va ?", "Wa'a ?", "❓"),
      Greeting("Ça va bien", "Me wa'a", "👍"),
      Greeting("Merci", "Oyié", "🙏")])
    case Nzebi => LanguageInfo("Nzebi", [
      Greeting("Bonjour", "Mbolani", "🌞"),
      Greeting("Comment ça va ?", "Wolo nani ?", "❓"),
      Greeting("Ça va bien", "Nani mbote", "👍"),
      Greeting("Merci", "Ndongui", "🙏"),
      Greeting("Au revoir", "Kende malamu", "👋")])
    case Teke => LanguageInfo("Téké", [
      Greeting("Bonjour", "Mbote", "🌞"),
      Greeting("Comment ça va ?", "Nzela nini ?", "❓"),
      Greeting("Ça va bien", "Nzela malamu", "👍"),
      Greeting("Merci", "Matondi", "🙏"),
      Greeting("Bienvenue", "Boyei malamu", "👐")])
  }

  /** `getCarouselData`: welcome, salutations with the language's quiz,
      vocabulary, numbers, and written and oral exercises. */
  function CarouselData(lang: Language): (slides: seq<Slide>)
    ensures |slides| == 5
  {
    var gs := LanguageData(lang).greeting;
    [ Welcome(TranslationAt(gs, 0)),
      Salutations(gs, lang),
      Vocabulary(gs),
      Numbers(NumberWords(gs)),
      Exercises(Slice(gs, 3)) ]
  }

  /** Every language's welcome headline and number words come from its
      greeting table, which always has the five entries they read, and the
      oral exercise lists exactly its first three greetings. */
  lemma SlidesReadDefinedGreetings(lang: Language)
    ensures CarouselData(lang)[0] == Welcome(LanguageData(lang).greeting[0].translation)
    ensures CarouselData(lang)[3].Numbers?
    ensures forall k :: 0 <= k < 5 ==>
      CarouselData(lang)[3].words[k] == LanguageData(lang).greeting[k].translation
    ensures CarouselData(lang)[4] == Exercises(LanguageData(lang).greeting[..3])
  {
    NumberWordsDefined(LanguageData(lang).greeting);
  }

  /** The page component's state. */
  class Page {
    var index: nat
    var currentLanguage: Language

    ghost predicate Valid()
      reads this
    {
      index < |CarouselData(currentLanguage)|
    }

    constructor ()
      ensures Valid() && index == 0 && currentLanguage == Fang
    {
      index, currentLanguage := 0, Fang;
    }

    method HandleNext()
      requires Valid()
      modifies this
      ensures Valid() && currentLanguage == old(currentLanguage)
      ensures index == Carousel.Next(old(index), |CarouselData(currentLanguage)|)
    {
      index := Carousel.Next(index, |CarouselData(currentLanguage)|);
    }

    method HandlePrev()
      requires Valid()
      modifies this
      ensures Valid() && currentLanguage == old(currentLanguage)
      ensures index == Carousel.Prev(old(index), |CarouselData(currentLanguage)|)
    {
      index := Carousel.Prev(index, |CarouselData(currentLanguage)|);
    }

    /** `renderNav`'s language selector `onChange`: switch language, back to the first slide. */
    method SelectLanguage(lang: Language)
      modifies this
      ensures Valid() && currentLanguage == lang && index == 0
    {
      currentLanguage := lang;
      index := 0;
    }

    /** `getCarouselData(currentLanguage)[index]`, the slide on screen: the
        welcome slide first, the oral exercise last, and every slide shows
        the current language's own greetings. */
    method CurrentSlide() returns (slide: Slide)
      requires Valid()
      ensures slide.Welcome? <==> index == 0
      ensures slide.Exercises? <==> index == 4
      ensures slide.Welcome? ==> slide.headline == LanguageData(currentLanguage).greeting[0].translation
      ensures slide.Salutations? ==>
        slide.entries == LanguageData(currentLanguage).greeting && slide.quiz == currentLanguage
      ensures slide.Vocabulary? ==> slide.entries == LanguageData(currentLanguage).greeting
      ensures slide.Numbers? ==> |slide.words| == 5 && forall k :: 0 <= k < 5 ==>
        slide.words[k] == LanguageData(currentLanguage).greeting[k].translation
      ensures slide.Exercises? ==> slide.oral == LanguageData(currentLanguage).greeting[..3]
      ensures !slide.Pronunciation? && !slide.Workshop?
    {
      SlidesReadDefinedGreetings(currentLanguage);
      slide := CarouselData(currentLanguage)[index];
    }
  }
}
