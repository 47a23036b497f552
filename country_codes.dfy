/**
 * `String.toISO3166Alpha2()` (presentation/utils/Utils.kt): the country
 * name shown in the filter dialog, matched case-insensitively, to the
 * two-letter code the headline API takes; unknown names give "".
 */
module Countries {
  import opened Text

  /** Every result is "" or two lower-case letters. A name gets a code exactly when its
      lower-case form is a non-empty name of the inverse table, and the code names it back,
      so the mapping is invertible on known names; anything else, "" included, gets "". */
  function ToISO3166Alpha2(name: string): (r: string)
    ensures r == "" || (|r| == 2 && 'a' <= r[0] <= 'z' && 'a' <= r[1] <= 'z')
    ensures r != "" ==> Lower(name) != "" && CountryName(r) == Lower(name)
    ensures forall c :: Lower(name) != "" && CountryName(c) == Lower(name) ==> r != ""
  {
    CodeOf(Lower(name))
  }

  /** The `when` over the lower-cased name: each name of the inverse table gets a two-letter
      code that the table sends back to it; anything else, "" included, gets "". */
  function CodeOf(lowered: string): (r: string)
    ensures r == "" || (|r| == 2 && 'a' <= r[0] <= 'z' && 'a' <= r[1] <= 'z')
    ensures r != "" ==> lowered != "" && CountryName(r) == lowered
    ensures forall c :: lowered != "" && CountryName(c) == lowered ==> r != ""
  {
    match lowered
    case "kenya" => "ke"
    case "united states" => "us"
    case "united kingdom" => "gb"
    case "australia" => "au"
    case "canada" => "ca"
    case "india" => "in"
    case "germany" => "de"
    case "france" => "fr"
    case "italy" => "it"
    case "netherlands" => "nl"
    case "norway" => "no"
    case "sweden" => "se"
    case "china" => "cn"
    case "japan" => "jp"
    case "south korea" => "kr"
    case "russia" => "ru"
    case "brazil" => "br"
    case "argentina" => "ar"
    case "mexico" => "mx"
    case "south africa" => "za"
    case "nigeria" => "ng"
    case "egypt" => "eg"
    case "saudi arabia" => "sa"
    case "united arab emirates" => "ae"
    case "kuwait" => "kw"
    case _ => ""
  }

  /** The inverse table: the lower-case country name a code stands for. */
  function CountryName(code: string): string {
    match code
    case "ke" => "kenya"
    case "us" => "united states"
    case "gb" => "united kingdom"
    case "au" => "australia"
    case "ca" => "canada"
    case "in" => "india"
    case "de" => "germany"
    case "fr" => "france"
    case "it" => "italy"
    case "nl" => "netherlands"
    case "no" => "norway"
    case "se" => "sweden"
    case "cn" => "china"
    case "jp" => "japan"
    case "kr" => "south korea"
    case "ru" => "russia"
    case "br" => "brazil"
    case "ar" => "argentina"
    case "mx" => "mexico"
    case "za" => "south africa"
    case "ng" => "nigeria"
    case "eg" => "egypt"
    case "sa" => "saudi arabia"
    case "ae" => "united arab emirates"
    case "kw" => "kuwait"
    case _ => ""
  }

  /** A name whose lower-case form is listed gets that entry's code. */
  lemma NameHasCode(name: string, lowered: string, code: string)
    requires Lower(name) == lowered && CodeOf(lowered) == code
    ensures ToISO3166Alpha2(name) == code
  {
  }

  /** Matching ignores case: a name and its lower-case form map to the same code. */
  lemma CaseInsensitive(name: string)
    ensures ToISO3166Alpha2(Lower(name)) == ToISO3166Alpha2(name)
  {
    LowerIdempotent(name);
  }

  /** Distinct countries get distinct codes. */
  lemma CodesDistinct(a: string, b: string)
    requires ToISO3166Alpha2(a) != ""
    requires Lower(a) != Lower(b)
    ensures ToISO3166Alpha2(a) != ToISO3166Alpha2(b)
  {
  }

  /** No code is itself a country name, so mapping twice always gives "". */
  lemma MapTwiceIsEmpty(name: string)
    ensures ToISO3166Alpha2(ToISO3166Alpha2(name)) == ""
  {
    LowerOfLowerLetters(ToISO3166Alpha2(name));
  }

  /** Listed names map to their codes whatever their case. */
  lemma KnownNameExamples()
    ensures ToISO3166Alpha2("Kenya") == "ke"
    ensures ToISO3166Alpha2("United Kingdom") == "gb"
    ensures ToISO3166Alpha2("SOUTH KOREA") == "kr"
  {
    assert ToISO3166Alpha2("Kenya") == "ke" by {
      assert Lower("Kenya") == "kenya";
    }
    assert ToISO3166Alpha2("United Kingdom") == "gb" by {
      assert Lower("United Kingdom") == "united kingdom";
    }
    assert ToISO3166Alpha2("SOUTH KOREA") == "kr" by {
      assert Lower("SOUTH KOREA") == "south korea";
    }
  }

  /** Surrounding whitespace is not stripped, and a code is not a name. */
  lemma UnknownInputExamples()
    ensures ToISO3166Alpha2(" Kenya") == ""
    ensures ToISO3166Alpha2("US") == ""
  {
    assert ToISO3166Alpha2(" Kenya") == "" by {
      assert Lower(" Kenya") == " kenya";
    }
    assert ToISO3166Alpha2("US") == "" by {
      assert Lower("US") == "us";
    }
  }
}
