/** The page controller of index.js: the three globals (`savedWords`,
    `currentWord`, `isDarkMode`) and the state of the page elements the
    script writes to, with one method per script function. A region's
    visibility is whether it carries the `hidden` class, so the page keeps
    the set of hidden regions. The network lookup is not performed: its
    outcome is a parameter. */
module App {
  import opened Wrappers
  import opened Text
  import opened Entry
  import opened Render

  const API_BASE_URL := "https://api.dictionaryapi.dev/api/v2/entries/en"
  const SEARCH_LABEL := "Search"
  const SEARCHING_LABEL := "Searching..."
  const NOT_FOUND_MESSAGE := "Word not found. Please try another word."
  const CONNECTIVITY_MESSAGE := "Failed to fetch word definition. Please check your connection and try again."
  const AUDIO_ERROR_MESSAGE := "Unable to play audio pronunciation."
  /** The message of the TypeError a browser (V8's wording) raises when
      `displayWordData` reads `.word` of `data[0]` from an empty array. */
  const UNDEFINED_WORD_MESSAGE := "Cannot read properties of undefined (reading 'word')"

  /** The page elements whose `hidden` class the script adds and removes. */
  datatype Region =
    | ErrorBanner | LoadingIndicator | WordData | Welcome
    | AudioControls | Sources | SavedWordsPanel | SunIcon | MoonIcon

  /** How the `fetch` of a lookup ended: a response with `ok` set and its
      parsed JSON array, a response without `ok`, or a thrown error. */
  datatype FetchOutcome = Ok(entries: seq<WordEntry>) | NotOk | Thrown(message: string)

  /** The hidden set after one region's `hidden` class is added (`hiding`) or removed. */
  function WithHidden(h: set<Region>, r: Region, hiding: bool): set<Region> {
    if hiding then h + {r} else h - {r}
  }

  /** The lookup produced an entry to display (`data[0]` exists). */
  predicate Succeeds(outcome: FetchOutcome) {
    outcome.Ok? && |outcome.entries| > 0
  }

  /** The text the `catch` block shows: `error.message`, or the
      connectivity message when that message is empty. Never empty, and
      the not-found message for a response without `ok`, and the engine's
      TypeError text for an empty array. */
  function ErrorText(outcome: FetchOutcome): (msg: string)
    requires !Succeeds(outcome)
    ensures msg != ""
    ensures outcome.Ok? ==> msg == UNDEFINED_WORD_MESSAGE
    ensures outcome.NotOk? ==> msg == NOT_FOUND_MESSAGE
    ensures outcome.Thrown? && outcome.message != "" ==> msg == outcome.message
    ensures outcome.Thrown? && outcome.message == "" ==> msg == CONNECTIVITY_MESSAGE
  {
    var thrown := match outcome
      case Ok(_) => UNDEFINED_WORD_MESSAGE
      case NotOk => NOT_FOUND_MESSAGE
      case Thrown(m) => m;
    OrElse(Some(thrown), CONNECTIVITY_MESSAGE)
  }

  class Wordly {
    // Global state
    var savedWords: seq<string>
    var currentWord: Option<WordEntry>
    var isDarkMode: bool

    // Page elements
    var hidden: set<Region>
    var errorText: string
    var searchDisabled: bool
    var searchLabel: string
    var wordTitle: string
    var wordPhonetic: string
    var saveButton: SaveButton
    var highlighted: bool
    var audioButtons: seq<AudioButton>
    var meaningBlocks: seq<MeaningBlock>
    var sourceLinks: seq<SourceLink>
    var savedTags: seq<string>
    var darkBody: bool

    /** The saved-word list never holds a word twice, and its panel shows
        one tag per saved word and is hidden exactly when there are none. */
    ghost predicate Valid()
      reads this
    {
      && NoDuplicates(savedWords)
      && savedTags == savedWords
      && (SavedWordsPanel in hidden <==> savedWords == [])
    }

    /** The save button agrees with the membership of the current word. */
    predicate SaveButtonInSync()
      reads this
    {
      saveButton == SaveButtonFor(currentWord, savedWords)
    }

    /** Exactly one of the welcome, error and word-data regions is visible. */
    predicate OneMainRegionShown()
      reads this
    {
      || (ErrorBanner !in hidden && WordData in hidden && Welcome in hidden)
      || (ErrorBanner in hidden && WordData !in hidden && Welcome in hidden)
      || (ErrorBanner in hidden && WordData in hidden && Welcome !in hidden)
    }

    /** Exactly one of the sun and moon icons is hidden: the sun in dark mode. */
    predicate ThemeInSync()
      reads this
    {
      darkBody == isDarkMode && (SunIcon in hidden <==> isDarkMode) && (MoonIcon in hidden <==> !isDarkMode)
    }

    /** The word-data region shows entry `e`, rendered against `savedWords`. */
    predicate Renders(e: WordEntry)
      reads this
    {
      && wordTitle == e.word
      && wordPhonetic == OrElse(e.phonetic, "")
      && highlighted == (e.word in savedWords)
      && audioButtons == AudioButtons(e.phonetics)
      && (AudioControls in hidden <==> audioButtons == [])
      && meaningBlocks == MeaningBlocks(e.meanings)
      && sourceLinks == SourceLinks(e.sourceUrls)
      && (Sources in hidden <==> sourceLinks == [])
    }

    /** The script's start: empty globals, then `init()` updates the saved-word
        panel. `markupHidden` is what the page markup hides initially. */
    constructor Load(markupHidden: set<Region>)
      ensures Valid()
      ensures savedWords == [] && currentWord == None && !isDarkMode
      ensures hidden == markupHidden + {SavedWordsPanel}
      ensures !darkBody
      ensures MoonIcon in markupHidden && SunIcon !in markupHidden ==> ThemeInSync()
    {
      savedWords := [];
      currentWord := None;
      isDarkMode := false;
      darkBody := false;
      hidden := markupHidden;
      new;
      UpdateSavedWordsDisplay();
    }

    /** `showElement`: remove the `hidden` class. */
    method ShowElement(r: Region)
      modifies this`hidden
      ensures hidden == old(hidden) - {r}
    {
      hidden := hidden - {r};
    }

    /** `hideElement`: add the `hidden` class. */
    method HideElement(r: Region)
      modifies this`hidden
      ensures hidden == old(hidden) + {r}
    {
      hidden := hidden + {r};
    }

    /** `showError`: show the message and the error region, hide the word
        data and the welcome message. */
    method ShowError(message: string)
      modifies this`errorText, this`hidden
      ensures errorText == message
      ensures hidden == old(hidden) - {ErrorBanner} + {WordData, Welcome}
      ensures OneMainRegionShown()
    {
      errorText := message;
      ShowElement(ErrorBanner);
      HideElement(WordData);
      HideElement(Welcome);
    }

    /** The synchronous part of `handleSearch`, up to the `fetch`: a blank
        term changes nothing and issues no request; otherwise the page
        enters its loading state and the request URL is returned. */
    method StartSearch(input: string) returns (request: Option<string>)
      modifies this`hidden, this`searchDisabled, this`searchLabel
      ensures Trim(input) == "" ==> request == None && unchanged(this)
      ensures Trim(input) != "" ==>
        && request == Some(API_BASE_URL + "/" + Trim(input))
        && hidden == old(hidden) + {ErrorBanner, WordData, Welcome} - {LoadingIndicator}
        && searchDisabled && searchLabel == SEARCHING_LABEL
    {
      var searchTerm := Trim(input);
      if searchTerm == "" {
        return None;
      }
      HideElement(ErrorBanner);
      HideElement(WordData);
      HideElement(Welcome);
      ShowElement(LoadingIndicator);
      searchDisabled := true;
      searchLabel := SEARCHING_LABEL;
      request := Some(API_BASE_URL + "/" + searchTerm);
    }

    /** The rest of `handleSearch`, once the `fetch` has ended. On success
        the first entry becomes the current word and is displayed; on any
        failure the current word is kept (an empty array leaves it
        undefined) and the error is shown. The search button is restored
        on every path and the loading indicator is hidden. */
    method FinishSearch(outcome: FetchOutcome)
      requires Valid()
      modifies this`currentWord, this`hidden, this`errorText, this`wordTitle, this`wordPhonetic,
        this`saveButton, this`highlighted, this`audioButtons, this`meaningBlocks, this`sourceLinks,
        this`searchDisabled, this`searchLabel
      ensures Valid()
      ensures !searchDisabled && searchLabel == SEARCH_LABEL
      ensures LoadingIndicator in hidden
      ensures Succeeds(outcome) ==>
        && currentWord == Some(outcome.entries[0])
        && Renders(outcome.entries[0]) && SaveButtonInSync()
        && errorText == old(errorText)
        && hidden == WithHidden(WithHidden(old(hidden), AudioControls, audioButtons == []), Sources, sourceLinks == [])
                     + {LoadingIndicator} - {WordData}
      ensures !Succeeds(outcome) ==>
        && currentWord == (if outcome.Ok? then None else old(currentWord))
        && errorText == ErrorText(outcome)
        && hidden == old(hidden) + {LoadingIndicator} - {ErrorBanner} + {WordData, Welcome}
        && unchanged(this`wordTitle, this`wordPhonetic, this`saveButton, this`highlighted,
                     this`audioButtons, this`meaningBlocks, this`sourceLinks)
    {
      if Succeeds(outcome) {
        currentWord := Some(outcome.entries[0]);
        DisplayWordData(outcome.entries[0]);
        HideElement(LoadingIndicator);
        ShowElement(WordData);
      } else {
        // The catch block. With an empty array `data[0]` is undefined and
        // `displayWordData` throws on its first line, after the assignment.
        if outcome.Ok? {
          currentWord := None;
        }
        HideElement(LoadingIndicator);
        ShowError(ErrorText(outcome));
      }
      searchDisabled := false;
      searchLabel := SEARCH_LABEL;
    }

    /** `handleSearch` as one atomic step. A blank term changes nothing. A
        lookup ends with the search button enabled and labelled "Search",
        the loading indicator hidden, exactly one of the welcome, error and
        word-data regions shown, and either the first entry displayed or the
        error message shown. The saved words and the theme are untouched. */
    method HandleSearch(input: string, outcome: FetchOutcome) returns (request: Option<string>)
      requires Valid()
      modifies this`currentWord, this`hidden, this`errorText, this`wordTitle, this`wordPhonetic,
        this`saveButton, this`highlighted, this`audioButtons, this`meaningBlocks, this`sourceLinks,
        this`searchDisabled, this`searchLabel
      ensures Valid()
      ensures Trim(input) == "" ==> request == None && unchanged(this)
      ensures Trim(input) != "" ==>
        && request == Some(API_BASE_URL + "/" + Trim(input))
        && !searchDisabled && searchLabel == SEARCH_LABEL
        && LoadingIndicator in hidden
        && OneMainRegionShown()
        && (forall r :: r in {SavedWordsPanel, SunIcon, MoonIcon} ==> (r in hidden <==> r in old(hidden)))
      ensures Trim(input) != "" && Succeeds(outcome) ==>
        && currentWord == Some(outcome.entries[0])
        && Renders(outcome.entries[0]) && SaveButtonInSync()
        && WordData !in hidden && ErrorBanner in hidden && Welcome in hidden
        && errorText == old(errorText)
      ensures Trim(input) != "" && !Succeeds(outcome) ==>
        && currentWord == (if outcome.Ok? then None else old(currentWord))
        && errorText == ErrorText(outcome)
        && hidden == old(hidden) - {ErrorBanner} + {WordData, Welcome, LoadingIndicator}
        && unchanged(this`wordTitle, this`wordPhonetic, this`saveButton, this`highlighted,
                     this`audioButtons, this`meaningBlocks, this`sourceLinks)
    {
      request := StartSearch(input);
      if request.Some? {
        FinishSearch(outcome);
      }
    }

    /** `displayWordData`: title, phonetic, save button, highlight, audio,
        meanings and sources for `data`. Only the audio and sources regions
        change visibility. */
    method DisplayWordData(data: WordEntry)
      modifies this`wordTitle, this`wordPhonetic, this`saveButton, this`highlighted,
        this`audioButtons, this`meaningBlocks, this`sourceLinks, this`hidden
      ensures Renders(data)
      ensures SaveButtonInSync()
      ensures hidden == WithHidden(WithHidden(old(hidden), AudioControls, audioButtons == []), Sources, sourceLinks == [])
    {
      wordTitle := data.word;
      wordPhonetic := OrElse(data.phonetic, "");
      UpdateSaveButtonState();
      highlighted := data.word in savedWords;
      DisplayAudioPronunciation(data.phonetics);
      DisplayMeanings(data.meanings);
      DisplaySources(data.sourceUrls);
    }

    /** `displayAudioPronunciation`: one button per playable phonetic, in
        order; the region is hidden exactly when there is none. */
    method DisplayAudioPronunciation(phonetics: Option<seq<Phonetic>>)
      modifies this`audioButtons, this`hidden
      ensures audioButtons == AudioButtons(phonetics)
      ensures hidden == WithHidden(old(hidden), AudioControls, audioButtons == [])
    {
      audioButtons := [];
      if phonetics.None? || |phonetics.value| == 0 {
        HideElement(AudioControls);
        return;
      }
      var audioPhonetics := Playable(phonetics.value);
      if |audioPhonetics| == 0 {
        HideElement(AudioControls);
        return;
      }
      for i := 0 to |audioPhonetics|
        invariant |audioButtons| == i
        invariant forall j :: 0 <= j < i ==> audioButtons[j] == ButtonFor(audioPhonetics[j])
        invariant hidden == old(hidden)
      {
        audioButtons := audioButtons + [ButtonFor(audioPhonetics[i])];
      }
      ShowElement(AudioControls);
    }

    /** `playAudio`: the URL actually played (protocol-relative URLs made
        https). When playback fails, the audio error is shown; otherwise
        nothing on the page changes. */
    method PlayAudio(audioUrl: string, playFails: bool) returns (fullUrl: string)
      requires Valid()
      modifies this`errorText, this`hidden
      ensures Valid()
      ensures fullUrl == PlaybackUrl(audioUrl)
      ensures !playFails ==> unchanged(this)
      ensures playFails ==>
        errorText == AUDIO_ERROR_MESSAGE && hidden == old(hidden) - {ErrorBanner} + {WordData, Welcome}
    {
      fullUrl := audioUrl;
      if StartsWith(audioUrl, "//") {
        fullUrl := "https:" + audioUrl;
      }
      if playFails {
        ShowError(AUDIO_ERROR_MESSAGE);
      }
    }

    /** `displayMeanings`: one block per meaning, in order. */
    method DisplayMeanings(meanings: Option<seq<Meaning>>)
      modifies this`meaningBlocks
      ensures meaningBlocks == MeaningBlocks(meanings)
    {
      meaningBlocks := [];
      if meanings.None? || |meanings.value| == 0 {
        return;
      }
      var ms := meanings.value;
      for i := 0 to |ms|
        invariant |meaningBlocks| == i
        invariant forall j :: 0 <= j < i ==> meaningBlocks[j] == BlockFor(ms[j])
      {
        var block := RenderMeaning(ms[i]);
        meaningBlocks := meaningBlocks + [block];
      }
    }

    /** `displaySources`: one link per URL, in order; the region is hidden
        exactly when `sourceUrls` is missing or empty. */
    method DisplaySources(sourceUrls: Option<seq<string>>)
      modifies this`sourceLinks, this`hidden
      ensures sourceLinks == SourceLinks(sourceUrls)
      ensures hidden == WithHidden(old(hidden), Sources, sourceLinks == [])
    {
      sourceLinks := [];
      if sourceUrls.None? || |sourceUrls.value| == 0 {
        HideElement(Sources);
        return;
      }
      var urls := sourceUrls.value;
      for i := 0 to |urls|
        invariant |sourceLinks| == i
        invariant forall j :: 0 <= j < i ==> sourceLinks[j] == LinkFor(urls[j])
        invariant hidden == old(hidden)
      {
        sourceLinks := sourceLinks + [LinkFor(urls[i])];
      }
      ShowElement(Sources);
    }

    /** `handleSaveWord`: with no current word, or one already saved,
        nothing changes. Otherwise exactly that word is appended, the save
        button turns to "Saved" and disabled, the panel shows the new list
        and the word data is highlighted. The list stays duplicate-free. */
    method HandleSaveWord()
      requires Valid()
      modifies this`savedWords, this`saveButton, this`savedTags, this`hidden, this`highlighted
      ensures Valid()
      ensures currentWord.None? || currentWord.value.word in old(savedWords) ==> unchanged(this)
      ensures currentWord.Some? && currentWord.value.word !in old(savedWords) ==>
        && savedWords == old(savedWords) + [currentWord.value.word]
        && saveButton == SaveButton(SAVED_LABEL, true, true)
        && SaveButtonInSync()
        && highlighted
        && hidden == old(hidden) - {SavedWordsPanel}
    {
      if currentWord.None? || currentWord.value.word in savedWords {
        return;
      }
      AppendFreshKeepsNoDuplicates(savedWords, currentWord.value.word);
      savedWords := savedWords + [currentWord.value.word];
      UpdateSaveButtonState();
      UpdateSavedWordsDisplay();
      highlighted := true;
    }

    /** `updateSaveButtonState`: the button follows the membership of the
        current word in the saved list. */
    method UpdateSaveButtonState()
      modifies this`saveButton
      ensures SaveButtonInSync()
    {
      if currentWord.Some? && currentWord.value.word in savedWords {
        saveButton := SaveButton(SAVED_LABEL, true, true);
      } else {
        saveButton := SaveButton(SAVE_LABEL, false, false);
      }
    }

    /** `updateSavedWordsDisplay`: one tag per saved word, in insertion
        order; the panel is hidden exactly when the list is empty. */
    method UpdateSavedWordsDisplay()
      modifies this`savedTags, this`hidden
      ensures savedTags == savedWords
      ensures hidden == WithHidden(old(hidden), SavedWordsPanel, savedWords == [])
    {
      savedTags := [];
      if |savedWords| == 0 {
        HideElement(SavedWordsPanel);
        return;
      }
      for i := 0 to |savedWords|
        invariant savedTags == savedWords[..i]
        invariant hidden == old(hidden)
      {
        savedTags := savedTags + [savedWords[i]];
      }
      ShowElement(SavedWordsPanel);
    }

    /** `toggleTheme`: flips dark mode, sets the body's `dark-mode` class to
        match and leaves exactly one of the two icons hidden. */
    method ToggleTheme()
      requires Valid()
      modifies this`isDarkMode, this`darkBody, this`hidden
      ensures Valid()
      ensures isDarkMode == !old(isDarkMode)
      ensures ThemeInSync()
      ensures hidden == WithHidden(WithHidden(old(hidden), SunIcon, isDarkMode), MoonIcon, !isDarkMode)
    {
      isDarkMode := !isDarkMode;
      darkBody := isDarkMode;
      if isDarkMode {
        HideElement(SunIcon);
        ShowElement(MoonIcon);
      } else {
        ShowElement(SunIcon);
        HideElement(MoonIcon);
      }
    }
  }

  /** Toggling the theme twice restores the whole page, once the icons agree
      with the mode. */
  method ToggleThemeTwice(page: Wordly)
    requires page.Valid() && page.ThemeInSync()
    modifies page
    ensures page.isDarkMode == old(page.isDarkMode) && page.darkBody == old(page.darkBody)
    ensures page.hidden == old(page.hidden)
    ensures unchanged(page)
  {
    page.ToggleTheme();
    page.ToggleTheme();
  }

  /** Saving twice in a row leaves the current word in the list exactly once. */
  method SaveTwice(page: Wordly)
    requires page.Valid() && page.SaveButtonInSync() && page.currentWord.Some?
    modifies page
    ensures page.Valid() && page.currentWord == old(page.currentWord)
    ensures page.currentWord.value.word in page.savedWords
    ensures page.saveButton == SaveButton(SAVED_LABEL, true, true)
    ensures page.savedWords == old(page.savedWords) ||
      page.savedWords == old(page.savedWords) + [page.currentWord.value.word]
  {
    page.HandleSaveWord();
    page.HandleSaveWord();
  }

  /** A failed lookup keeps the previous entry as the current word while
      hiding it, so a save that follows stores that previous word. */
  method SaveAfterFailedLookup(page: Wordly, input: string, outcome: FetchOutcome)
    requires page.Valid() && page.currentWord.Some? && page.currentWord.value.word !in page.savedWords
    requires Trim(input) != "" && (outcome.NotOk? || outcome.Thrown?)
    modifies page
    ensures page.Valid()
    ensures ErrorBanner !in page.hidden && WordData in page.hidden
    ensures page.savedWords == old(page.savedWords) + [old(page.currentWord).value.word]
  {
    var _ := page.HandleSearch(input, outcome);
    page.HandleSaveWord();
  }
}
