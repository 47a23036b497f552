/**
 * `NewsListUiState` and the filter choices the news list offers
 * (presentation/newslist/NewsListUiState.kt). The paged news flow is
 * represented by the paging-source filters it is built from.
 */
module NewsListState {
  import opened Wrappers
  import opened Paging
  import opened Countries
  import opened Text

  datatype NewsListUiState = NewsListUiState(
    news: Option<NewsPagingSource>,
    showNewsFilters: bool,
    showCountryDialog: bool,
    selectedCountry: Option<string>,
    selectedCategory: Option<string>,
    initialized: bool
  )

  /** The categories offered; "unfiltered" is a null selection, not an entry. */
  const newsCategories: seq<string> := [
    "Business", "Entertainment", "General", "Health", "Science", "Sports", "Technology"
  ]

  /** The countries offered, in display order. */
  const newsCountries: seq<string> := [
    "United States", "United Kingdom", "Australia", "Canada", "Kenya", "India", "Germany",
    "France", "Italy", "Netherlands", "Norway", "Sweden", "China", "Japan", "South Korea",
    "Russia", "Brazil", "Argentina", "Mexico", "South Africa", "Nigeria", "Egypt",
    "Saudi Arabia", "United Arab Emirates", "Kuwait"
  ]

  /** `NewsListUiState()` with every default. */
  function DefaultState(): (s: NewsListUiState)
    ensures s.news.None? && !s.showNewsFilters && !s.showCountryDialog
    ensures s.selectedCountry == Some("United States") && s.selectedCategory.None? && !s.initialized
  {
    NewsListUiState(None, false, false, Some(newsCountries[0]), None, false)
  }

  /** 25 countries, no two alike. */
  lemma CountriesDistinct()
    ensures |newsCountries| == 25
    ensures forall i, j :: 0 <= i < j < |newsCountries| ==> newsCountries[i] != newsCountries[j]
  {
  }

  /** Every offered country has a code, and different countries have different codes. */
  lemma CountriesHaveDistinctCodes()
    ensures forall i :: 0 <= i < |newsCountries| ==> ToISO3166Alpha2(newsCountries[i]) != ""
    ensures forall i, j :: 0 <= i < j < |newsCountries| ==>
      ToISO3166Alpha2(newsCountries[i]) != ToISO3166Alpha2(newsCountries[j])
  {
    CountryCodesInOrder();
    OfferedCodesDistinct();
  }

  /** The listed codes are non-empty and pairwise distinct. */
  lemma OfferedCodesDistinct()
    ensures |OFFERED_CODES| == 25
    ensures forall i :: 0 <= i < |OFFERED_CODES| ==> OFFERED_CODES[i] != ""
    ensures forall i, j :: 0 <= i < j < |OFFERED_CODES| ==> OFFERED_CODES[i] != OFFERED_CODES[j]
  {
  }

  /** The codes of the offered countries, in display order. */
  lemma {:induction false} CountryCodesInOrder()
    ensures forall i :: 0 <= i < |newsCountries| ==> ToISO3166Alpha2(newsCountries[i]) == OFFERED_CODES[i]
  {
    CountryCodesFrom0();
    CountryCodesFrom3();
    CountryCodesFrom6();
    CountryCodesFrom9();
    CountryCodesFrom12();
    CountryCodesFrom15();
    CountryCodesFrom18();
    CountryCodesFrom21();
    CountryCodesFrom23();
    CountryCodesFrom24();
  }

  /** The code each offered country maps to, listed for the proofs below. */
  const OFFERED_CODES: seq<string> := [
    "us", "gb", "au", "ca", "ke", "in", "de", "fr", "it", "nl", "no", "se", "cn", "jp", "kr", "ru", "br", "ar", "mx", "za", "ng", "eg", "sa", "ae", "kw"
  ]

  lemma CountryCodesFrom0()
    ensures forall i :: 0 <= i < 3 ==> ToISO3166Alpha2(newsCountries[i]) == OFFERED_CODES[i]
  {
    NameHasCode("United States", "united states", "us");
    NameHasCode("United Kingdom", "united kingdom", "gb");
    NameHasCode("Australia", "australia", "au");
  }

  lemma CountryCodesFrom3()
    ensures forall i :: 3 <= i < 6 ==> ToISO3166Alpha2(newsCountries[i]) == OFFERED_CODES[i]
  {
    NameHasCode("Canada", "canada", "ca");
    NameHasCode("Kenya", "kenya", "ke");
    NameHasCode("India", "india", "in");
  }

  lemma CountryCodesFrom6()
    ensures forall i :: 6 <= i < 9 ==> ToISO3166Alpha2(newsCountries[i]) == OFFERED_CODES[i]
  {
    NameHasCode("Germany", "germany", "de");
    NameHasCode("France", "france", "fr");
    NameHasCode("Italy", "italy", "it");
  }

  lemma CountryCodesFrom9()
    ensures forall i :: 9 <= i < 12 ==> ToISO3166Alpha2(newsCountries[i]) == OFFERED_CODES[i]
  {
    NameHasCode("Netherlands", "netherlands", "nl");
    NameHasCode("Norway", "norway", "no");
    NameHasCode("Sweden", "sweden", "se");
  }

  lemma CountryCodesFrom12()
    ensures forall i :: 12 <= i < 15 ==> ToISO3166Alpha2(newsCountries[i]) == OFFERED_CODES[i]
  {
    NameHasCode("China", "china", "cn");
    NameHasCode("Japan", "japan", "jp");
    NameHasCode("South Korea", "south korea", "kr");
  }

  lemma CountryCodesFrom15()
    ensures forall i :: 15 <= i < 18 ==> ToISO3166Alpha2(newsCountries[i]) == OFFERED_CODES[i]
  {
    NameHasCode("Russia", "russia", "ru");
    NameHasCode("Brazil", "brazil", "br");
    NameHasCode("Argentina", "argentina", "ar");
  }

  lemma CountryCodesFrom18()
    ensures forall i :: 18 <= i < 21 ==> ToISO3166Alpha2(newsCountries[i]) == OFFERED_CODES[i]
  {
    NameHasCode("Mexico", "mexico", "mx");
    NameHasCode("South Africa", "south africa", "za");
    NameHasCode("Nigeria", "nigeria", "ng");
  }

  lemma CountryCodesFrom21()
    ensures forall i :: 21 <= i < 23 ==> ToISO3166Alpha2(newsCountries[i]) == OFFERED_CODES[i]
  {
    NameHasCode("Egypt", "egypt", "eg");
    NameHasCode("Saudi Arabia", "saudi arabia", "sa");
  }

  lemma CountryCodesFrom23()
    ensures forall i :: 23 <= i < 24 ==> ToISO3166Alpha2(newsCountries[i]) == OFFERED_CODES[i]
  {
    NameHasCode("United Arab Emirates", "united arab emirates", "ae");
  }

  lemma CountryCodesFrom24()
    ensures forall i :: 24 <= i < 25 ==> ToISO3166Alpha2(newsCountries[i]) == OFFERED_CODES[i]
  {
    NameHasCode("Kuwait", "kuwait", "kw");
  }

  /** Seven categories, no two alike, none of them an "All News" entry. */
  lemma CategoriesDistinct()
    ensures |newsCategories| == 7
    ensures forall i, j :: 0 <= i < j < |newsCategories| ==> newsCategories[i] != newsCategories[j]
    ensures "All News" !in newsCategories
  {
  }
}
