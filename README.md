# Wordly dictionary page — a Dafny model

Wordly is a single-page dictionary client written as one browser script,
`index.js`. The user types a word. The script looks it up in the public
dictionary API and shows the result: the word, its phonetic spelling,
buttons that play the pronunciations, one section per meaning, and the
source links. The user can also keep an in-memory list of saved words and
switch between a light and a dark theme.

This project models the part of the script that can be stated precisely.
That part is the page state the script keeps and the way each user action
changes it.

- `wrappers.dfy` (`Wrappers`): `Option`, which stands for a JavaScript
  property that may be `undefined` or `null`.
- `text.dfy` (`Text`): the JavaScript built-ins the script relies on.
  These are `String.prototype.trim` (with ECMAScript's white-space and
  line-terminator set), `startsWith`, and the truthiness of an optional
  string (`s || fallback`).
- `entry.dfy` (`Entry`): the shape of one entry of the API response, as the
  script reads it.
- `seqs.dfy` (`Seqs`): `Array.prototype.filter` as a function, with its
  order, membership and emptiness properties.
- `render.dfy` (`Render`): what the page shows for an entry, as values.
  It covers the audio buttons (the phonetics filter), the playback URL
  fix-up, the meaning blocks with their "left out when empty" sections, the
  source links and the save button. Pure functions state what is shown. The
  methods `RenderDefinitions` and `RenderTags` are the script's inner
  `forEach` loops, and `RenderMeaning` is the body of the outer
  `meanings.forEach` callback. Each is proved to build what the function says.
- `app.dfy` (`App`): the class `Wordly`. It holds the script's globals
  (`savedWords`, `currentWord`, `isDarkMode`) and the state of the page
  elements the script writes. Visibility is the set `hidden` of regions
  that carry the `hidden` class. There is one method per script function,
  and each method's frame (`modifies this`field`) lists exactly the fields
  it may change.

The `fetch` call is not performed. Its outcome is a parameter: `Ok(entries)`
for an `ok` response with its parsed array, `NotOk`, or `Thrown(message)`.
`handleSearch` is split at its `await`. `StartSearch` is the part before the
request and returns the request URL. `FinishSearch` is the part after it.
`HandleSearch` runs both as one atomic step.

Behaviour of the code worth knowing:

- The lookup URL is the trimmed term appended verbatim; the code does not
  URL-encode it.
- A failed lookup keeps the previous `currentWord`. `SaveAfterFailedLookup`
  shows that a save made then stores that previous, now hidden, word.
- An `ok` response with an empty array leaves `currentWord` undefined, and
  `displayWordData` then throws while reading `.word`. The `catch` block shows
  the engine's TypeError message. The model uses V8's wording for it.
- Entering the loading state hides all three main regions. So "exactly one of
  welcome, error and word data is shown" holds after a lookup ends, not
  while it is in flight.
- The definition bullet is kept as the file spells it: the three characters
  `â€¢` followed by a space, which is U+2022 double-encoded.

## Model

| member | source | states |
|---|---|---|
| `Text.TrimStart` | index.js:49 | the result is empty exactly when the input is all JavaScript white space, and otherwise starts with a non-space |
| `Text.TrimEnd` | index.js:49 | the result is empty exactly when the input is all white space, and otherwise keeps the first character and ends with a non-space |
| `Text.TrimStartSuffix` | index.js:49 | what `trimStart` keeps is a suffix of the input, and what it drops is all white space |
| `Text.TrimEndPrefix` | index.js:49 | what `trimEnd` keeps is a prefix of the input, and what it drops is all white space |
| `Text.Trim` | index.js:49 | `trim()` is empty exactly when the input is all white space, and otherwise starts and ends with a non-space |
| `Text.TrimIdempotent` | index.js:49 | trimming a trimmed term changes nothing |
| `Text.OrElse` | index.js:92 | the JavaScript "or" of an optional string and a fallback gives the string when it is present and non-empty, the fallback otherwise |
| `Render.Playable` | index.js:123 | the filtered phonetics are no more than the input, and each has an audio URL |
| `Seqs.Filter` | index.js:123 | a filter keeps no more than the input, and every item it keeps passes the test |
| `Seqs.FilterAppend` | index.js:123 | filtering distributes over concatenation, so the original order is kept |
| `Seqs.FilterMembership` | index.js:123 | an item survives the filter iff it is in the input and passes the test |
| `Seqs.FilterEmpty` | index.js:123 | nothing survives iff no item passes the test |
| `Render.AudioButtonsEmpty` | index.js:115-128 | there are no audio buttons, so the audio region is hidden, iff `phonetics` is missing or no item is playable (this covers the empty list) |
| `Render.AudioButtonsMembership` | index.js:130-142 | a button is present iff a playable phonetic yields it, carrying its URL and labelled with its text or "Play Audio" |
| `Render.AudioButtonsSingle` | index.js:123-142 | one phonetic yields exactly one button when it is playable and none otherwise, so with `AudioButtonsAppend` the buttons are exactly one per playable phonetic, in order |
| `Render.AudioButtonsAppend` | index.js:130-142 | the buttons keep the order of the phonetics they come from |
| `Render.PlaybackUrl` | index.js:150-153 | a URL starting with "//" gets "https:" in front, any other URL is unchanged, and the result is never protocol-relative |
| `Render.PlaybackUrlIdempotent` | index.js:150-153 | fixing up an already fixed URL changes nothing |
| `Render.PlaybackUrlExamples` | index.js:150-153 | "//example.com/a.mp3" is played as "https://example.com/a.mp3" and an https URL as it is |
| `Render.ItemFor` | index.js:193-210 | a definition item is the bullet plus the definition, with an `Example: "…"` line iff `example` is truthy |
| `Render.BlockFor` | index.js:170-263 | a meaning block keeps the part of speech; its definitions, synonyms and antonyms sections are present iff their lists are present and non-empty, and hold those lists' items in order |
| `Render.MeaningBlocks` | index.js:163-168 | there is one block per meaning, in order, each the block `BlockFor` describes for that meaning, and no block when `meanings` is missing or empty |
| `Render.RenderDefinitions` | index.js:193-210 | the definitions loop builds one item per definition, in order |
| `Render.RenderTags` | index.js:229-234 | the synonym and antonym loops build one tag per word, reading that word, in order |
| `Render.RenderMeaning` | index.js:170-263 | building one meaning section yields exactly the block `BlockFor` describes |
| `Render.SourceLinks` | index.js:269-294 | there are no links iff `sourceUrls` is missing or empty; otherwise there is one link per URL, in order, with that URL as href and text, target `_blank` and rel "noopener noreferrer" |
| `Render.SaveButtonFor` | index.js:309-319 | the button reads "Saved" iff there is a current word and it is saved; otherwise it reads "Save Word"; it is disabled and marked iff it reads "Saved" |
| `Render.AppendFreshKeepsNoDuplicates` | index.js:298-303 | appending a word that is not in the list keeps the list duplicate-free |
| `App.ErrorText` | index.js:68-81 | the error shown is never empty: the not-found message for a non-ok response, the thrown message when it is non-empty, the connectivity message when it is empty, and the engine's TypeError text for an empty response array |
| `App.Wordly.Load` | index.js:1-45 | at start the globals are empty or false, the body has no dark-mode class, `init` hides the empty saved-words panel, and the icons agree with the light theme when the markup hides the moon and shows the sun |
| `App.Wordly.ShowElement` | index.js:365-367 | showing removes exactly that region from the hidden set |
| `App.Wordly.HideElement` | index.js:369-371 | hiding adds exactly that region to the hidden set |
| `App.Wordly.ShowError` | index.js:357-362 | sets the message, shows the error region, hides word data and welcome, and leaves exactly one main region shown |
| `App.Wordly.StartSearch` | index.js:48-63 | a blank term issues no request and changes nothing; otherwise the request goes to the base URL plus the trimmed term, and error, word data and welcome are hidden, loading is shown, and the button is disabled and reads "Searching..." |
| `App.Wordly.FinishSearch` | index.js:65-85 | on success the first entry becomes current and is rendered, loading is hidden and word data shown; on failure the current word is kept (undefined for an empty array), loading is hidden and the error is shown; the button is enabled and reads "Search" on every path |
| `App.Wordly.HandleSearch` | index.js:48-86 | a blank search changes nothing; after any other search the button is restored, loading is hidden, exactly one main region is shown, the saved-words panel and theme icons are untouched, and either the entry is displayed with the error hidden and the error text kept, or the error text is shown with exactly error shown and word data, welcome and loading hidden, every other region and the rendered entry left as they were |
| `App.Wordly.DisplayWordData` | index.js:89-112 | title, phonetic (or empty), save button, highlight, audio, meanings and sources all follow the entry and the saved list; only the audio and sources regions change visibility |
| `App.Wordly.DisplayAudioPronunciation` | index.js:115-145 | the audio buttons are exactly those for the playable phonetics, in order, and the region is hidden iff there are none |
| `App.Wordly.PlayAudio` | index.js:148-160 | the saved-words invariant is kept; the played URL is the fixed-up one; a failed playback shows "Unable to play audio pronunciation.", and otherwise nothing changes |
| `App.Wordly.DisplayMeanings` | index.js:163-266 | the meaning blocks are exactly one per meaning, in order |
| `App.Wordly.DisplaySources` | index.js:269-295 | the links are exactly one per source URL, and the region is hidden iff there are none |
| `App.Wordly.HandleSaveWord` | index.js:298-307 | with no current word, or one already saved, nothing changes; otherwise exactly that word is appended, the button reads "Saved" and is disabled, the panel is shown and the entry highlighted; the list stays duplicate-free |
| `App.Wordly.UpdateSaveButtonState` | index.js:309-319 | the save button follows the membership of the current word in the saved list |
| `App.Wordly.UpdateSavedWordsDisplay` | index.js:321-337 | one tag per saved word, in insertion order, and the panel is hidden iff the list is empty |
| `App.Wordly.ToggleTheme` | index.js:340-354 | the saved-words invariant is kept; dark mode is negated, the body class follows it, exactly one of the sun and moon icons is hidden, and no other region changes |
| `App.ToggleThemeTwice` | index.js:340-354 | toggling twice restores the whole page: the mode, the body class, the icons and every other field |
| `App.SaveTwice` | index.js:298-307 | saving twice leaves the current word in the list once, and the button reads "Saved" and is disabled |
| `App.SaveAfterFailedLookup` | index.js:298-303 | after a failed lookup, a save stores the previous entry's word even though it is hidden |

## Left out

- The network call (`fetch`, `response.json`) is foreign I/O. Its outcome
  is a parameter, and a body that does not parse is a `Thrown` outcome.
- Overlapping searches: the code lets a second search start while one is
  still waiting on `await`, and does not guard against it. Each search is
  modelled as one atomic step, with `StartSearch`/`FinishSearch` for the
  state in between.
- DOM construction: element creation, class names other than `hidden`,
  `saved` and `saved-highlight`, SVG markup, and `document.body.classList`
  beyond the `dark-mode` flag. Regions are abstract flags, and contents are
  sequences of display items.
- `innerHTML` parsing: audio labels and source URLs are written into
  `innerHTML`, so markup inside them would be parsed as HTML. The model
  treats them as plain text.
- Audio playback (`new Audio`, the `play()` promise, `console.error`) is
  foreign and asynchronous. Whether `play()` rejects is a parameter of
  `PlayAudio`.
- Event-listener wiring and the Enter-key handler only call the modelled
  functions.
- Malformed responses: the model gives `definition` and `partOfSpeech`
  string values. The script would render a missing definition as
  "undefined" and a missing part of speech as empty text.
- The initial visibility of regions comes from the page markup, which is
  not part of this model. It is a parameter of `Wordly.Load`.
- App.Wordly.FinishSearch: for an empty response array, the error message
  is the engine's TypeError text. The model fixes V8's wording, while
  other engines word it differently.
