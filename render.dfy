/** What index.js renders for one dictionary entry, as values instead of
    DOM nodes: the audio buttons, the meaning blocks, the source links and
    the save button. The pure functions say what is shown; the methods are
    the source's `forEach` loops that build the detached nodes, each proved
    to produce what the function says. */
module Render {
  import opened Wrappers
  import opened Text
  import opened Entry
  import opened Seqs

  const PLAY_AUDIO_LABEL := "Play Audio"
  /** The definition bullet exactly as index.js spells it: the three
      characters that U+2022 BULLET's UTF-8 bytes read as in Windows-1252. */
  const BULLET := "\U{00E2}\U{20AC}\U{00A2} "
  const LINK_TARGET := "_blank"
  const LINK_REL := "noopener noreferrer"
  const SAVED_LABEL := "Saved"
  const SAVE_LABEL := "Save Word"

  /** An audio button: its visible text and the URL its click handler plays. */
  datatype AudioButton = AudioButton(text: string, audio: string)

  /** A definition list item: the bullet line and the optional example line. */
  datatype DefinitionItem = DefinitionItem(text: string, example: Option<string>)

  /** One meaning section; `None` stands for a sub-section left out. */
  datatype MeaningBlock = MeaningBlock(
    partOfSpeech: string,
    definitions: Option<seq<DefinitionItem>>,
    synonyms: Option<seq<string>>,
    antonyms: Option<seq<string>>)

  /** A source link: `href`, `target`, `rel` and its visible text. */
  datatype SourceLink = SourceLink(href: string, target: string, rel: string, text: string)

  /** The save button: its text, its `disabled` flag and its `saved` class. */
  datatype SaveButton = SaveButton(text: string, disabled: bool, marked: bool)

  /** `list && list.length > 0` */
  predicate NonEmpty<T>(xs: Option<seq<T>>) {
    xs.Some? && |xs.value| > 0
  }

  // ---------------------------------------------------------------------
  // Audio pronunciation

  /** The filter predicate `p => p.audio && p.audio.trim() !== ''`. */
  predicate IsPlayable(p: Phonetic) {
    p.audio.Some? && Trim(p.audio.value) != ""
  }

  /** `phonetics.filter(...)`: the playable phonetics, in order; each
      has an audio URL. */
  function Playable(ps: seq<Phonetic>): (r: seq<Phonetic>)
    ensures |r| <= |ps|
    ensures forall i :: 0 <= i < |r| ==> r[i].audio.Some?
  {
    Filter(IsPlayable, ps)
  }

  /** The button rendered for a playable phonetic: labelled with its text,
      or "Play Audio" when the text is missing or empty. */
  function ButtonFor(p: Phonetic): (b: AudioButton)
    requires p.audio.Some?
  {
    AudioButton(OrElse(p.text, PLAY_AUDIO_LABEL), p.audio.value)
  }

  /** One button per phonetic of `xs`, in order. */
  function ButtonsOf(xs: seq<Phonetic>): seq<AudioButton>
    requires forall i :: 0 <= i < |xs| ==> xs[i].audio.Some?
  {
    seq(|xs|, i requires 0 <= i < |xs| => ButtonFor(xs[i]))
  }

  lemma ButtonsOfAppend(xa: seq<Phonetic>, xb: seq<Phonetic>)
    requires forall i :: 0 <= i < |xa| ==> xa[i].audio.Some?
    requires forall i :: 0 <= i < |xb| ==> xb[i].audio.Some?
    ensures ButtonsOf(xa + xb) == ButtonsOf(xa) + ButtonsOf(xb)
  {
    var whole, parts := ButtonsOf(xa + xb), ButtonsOf(xa) + ButtonsOf(xb);
    forall i | 0 <= i < |whole| ensures whole[i] == parts[i] {
      if i < |xa| {
        assert (xa + xb)[i] == xa[i];
      } else {
        assert (xa + xb)[i] == xb[i - |xa|];
      }
    }
  }

  /** The buttons `displayAudioPronunciation` creates, one per playable phonetic. */
  function AudioButtons(phonetics: Option<seq<Phonetic>>): (r: seq<AudioButton>)
  {
    match phonetics
    case None => []
    case Some(ps) => ButtonsOf(Playable(ps))
  }

  /** The audio region is hidden exactly when there is no button: the
      `phonetics` list is missing, or none of its items is playable. */
  lemma AudioButtonsEmpty(phonetics: Option<seq<Phonetic>>)
    ensures AudioButtons(phonetics) == [] <==>
      phonetics.None? || forall i :: 0 <= i < |phonetics.value| ==> !IsPlayable(phonetics.value[i])
  {
    if phonetics.Some? {
      FilterEmpty(IsPlayable, phonetics.value);
    }
  }

  /** Each button belongs to a playable phonetic and carries its audio URL
      and its label; every playable phonetic has its button. */
  lemma AudioButtonsMembership(ps: seq<Phonetic>, b: AudioButton)
    ensures b in AudioButtons(Some(ps)) <==>
      exists p :: p in ps && IsPlayable(p) && b == AudioButton(OrElse(p.text, PLAY_AUDIO_LABEL), p.audio.value)
  {
    var xs := Playable(ps);
    var bs := AudioButtons(Some(ps));
    if b in bs {
      var i :| 0 <= i < |bs| && bs[i] == b;
      FilterMembership(IsPlayable, ps, xs[i]);
    }
    forall p | p in ps && IsPlayable(p) ensures ButtonFor(p) in bs {
      FilterMembership(IsPlayable, ps, p);
      var i :| 0 <= i < |xs| && xs[i] == p;
      assert bs[i] == ButtonFor(p);
    }
  }

  /** One phonetic yields exactly one button when it is playable and none
      otherwise; with `AudioButtonsAppend` this fixes the whole sequence. */
  lemma AudioButtonsSingle(p: Phonetic)
    ensures AudioButtons(Some([p])) == (if IsPlayable(p) then [ButtonFor(p)] else [])
  {
    assert [p][1..] == [];
  }

  /** Buttons keep the order of the phonetics they come from. */
  lemma AudioButtonsAppend(a: seq<Phonetic>, b: seq<Phonetic>)
    ensures AudioButtons(Some(a + b)) == AudioButtons(Some(a)) + AudioButtons(Some(b))
  {
    FilterAppend(IsPlayable, a, b);
    ButtonsOfAppend(Playable(a), Playable(b));
  }

  /** `playAudio`'s fix-up of protocol-relative URLs: a URL starting with
      "//" gets "https:" in front; any other URL is left alone. */
  function PlaybackUrl(url: string): (r: string)
    ensures r == url <==> !StartsWith(url, "//")
    ensures r != url ==> r == "https:" + url
    ensures !StartsWith(r, "//")
  {
    if StartsWith(url, "//") then
      var r := "https:" + url;
      assert r[0] == 'h';
      r
    else url
  }

  /** Fixing up a URL twice changes nothing more. */
  lemma PlaybackUrlIdempotent(url: string)
    ensures PlaybackUrl(PlaybackUrl(url)) == PlaybackUrl(url)
  {
  }

  /** The protocol-relative example: "//example.com/a.mp3" is played as
      "https://example.com/a.mp3"; an absolute URL is played as it is. */
  lemma PlaybackUrlExamples()
    ensures PlaybackUrl("//example.com/a.mp3") == "https://example.com/a.mp3"
    ensures PlaybackUrl("https://example.com/a.mp3") == "https://example.com/a.mp3"
  {
    assert StartsWith("//example.com/a.mp3", "//");
    assert "https://example.com/a.mp3"[0] == 'h';
  }

  // ---------------------------------------------------------------------
  // Meanings

  /** The list item for one definition: the bullet line, and an example
      line only when `example` is truthy. */
  function ItemFor(d: Definition): (item: DefinitionItem)
    ensures item.text == BULLET + d.definition
    ensures item.example.Some? <==> Truthy(d.example)
    ensures item.example.Some? ==> item.example.value == "Example: \"" + d.example.value + "\""
  {
    DefinitionItem(
      BULLET + d.definition,
      if Truthy(d.example) then Some("Example: \"" + d.example.value + "\"") else None)
  }

  /** One item per definition, in order. */
  function DefinitionItems(defs: seq<Definition>): (items: seq<DefinitionItem>)
  {
    seq(|defs|, i requires 0 <= i < |defs| => ItemFor(defs[i]))
  }

  /** The block for one meaning: the part of speech always, and each of the
      definitions, synonyms and antonyms sections exactly when its list is
      present and non-empty, holding that list's items in order. */
  function BlockFor(m: Meaning): (b: MeaningBlock)
    ensures b.partOfSpeech == m.partOfSpeech
    ensures b.definitions.Some? <==> NonEmpty(m.definitions)
    ensures b.definitions.Some? ==>
      |b.definitions.value| == |m.definitions.value| &&
      forall i :: 0 <= i < |m.definitions.value| ==> b.definitions.value[i] == ItemFor(m.definitions.value[i])
    ensures b.synonyms.Some? <==> NonEmpty(m.synonyms)
    ensures b.synonyms.Some? ==> b.synonyms == m.synonyms
    ensures b.antonyms.Some? <==> NonEmpty(m.antonyms)
    ensures b.antonyms.Some? ==> b.antonyms == m.antonyms
  {
    MeaningBlock(
      m.partOfSpeech,
      if NonEmpty(m.definitions) then Some(DefinitionItems(m.definitions.value)) else None,
      if NonEmpty(m.synonyms) then m.synonyms else None,
      if NonEmpty(m.antonyms) then m.antonyms else None)
  }

  /** The blocks `displayMeanings` appends: one per meaning, in order, and
      none when `meanings` is missing or empty. */
  function MeaningBlocks(meanings: Option<seq<Meaning>>): (r: seq<MeaningBlock>)
    ensures r == [] <==> !NonEmpty(meanings)
    ensures meanings.Some? ==> |r| == |meanings.value|
    ensures meanings.Some? ==> forall i :: 0 <= i < |r| ==> r[i] == BlockFor(meanings.value[i])
  {
    match meanings
    case None => []
    case Some(ms) => seq(|ms|, i requires 0 <= i < |ms| => BlockFor(ms[i]))
  }

  /** The `meaning.definitions.forEach` loop: one list item per definition. */
  method RenderDefinitions(defs: seq<Definition>) returns (items: seq<DefinitionItem>)
    ensures items == DefinitionItems(defs)
  {
    items := [];
    for i := 0 to |defs|
      invariant items == DefinitionItems(defs[..i])
    {
      items := items + [ItemFor(defs[i])];
    }
    assert defs[..|defs|] == defs;
  }

  /** The `synonyms.forEach` / `antonyms.forEach` loop: one tag per word,
      reading that word, in order. */
  method RenderTags(words: seq<string>) returns (tags: seq<string>)
    ensures tags == words
  {
    tags := [];
    for i := 0 to |words|
      invariant tags == words[..i]
    {
      tags := tags + [words[i]];
    }
  }

  /** The body of the `meanings.forEach` callback: build one meaning section. */
  method RenderMeaning(m: Meaning) returns (block: MeaningBlock)
    ensures block == BlockFor(m)
  {
    var definitions: Option<seq<DefinitionItem>> := None;
    if m.definitions.Some? && |m.definitions.value| > 0 {
      var items := RenderDefinitions(m.definitions.value);
      definitions := Some(items);
    }
    var synonyms: Option<seq<string>> := None;
    if m.synonyms.Some? && |m.synonyms.value| > 0 {
      var tags := RenderTags(m.synonyms.value);
      synonyms := Some(tags);
    }
    var antonyms: Option<seq<string>> := None;
    if m.antonyms.Some? && |m.antonyms.value| > 0 {
      var tags := RenderTags(m.antonyms.value);
      antonyms := Some(tags);
    }
    block := MeaningBlock(m.partOfSpeech, definitions, synonyms, antonyms);
  }

  // ---------------------------------------------------------------------
  // Sources

  /** The link for one source URL: opens in a new tab without a reference
      back to the opener. */
  function LinkFor(url: string): SourceLink {
    SourceLink(url, LINK_TARGET, LINK_REL, url)
  }

  /** The links `displaySources` creates: none when `sourceUrls` is missing
      or empty (the region is then hidden), else one per URL, in order. */
  function SourceLinks(urls: Option<seq<string>>): (r: seq<SourceLink>)
    ensures r == [] <==> !NonEmpty(urls)
    ensures NonEmpty(urls) ==> |r| == |urls.value|
    ensures NonEmpty(urls) ==> forall i :: 0 <= i < |r| ==>
      && r[i].href == urls.value[i] && r[i].text == urls.value[i]
      && r[i].target == "_blank" && r[i].rel == "noopener noreferrer"
  {
    if NonEmpty(urls) then seq(|urls.value|, i requires 0 <= i < |urls.value| => LinkFor(urls.value[i]))
    else []
  }

  // ---------------------------------------------------------------------
  // Saved words

  /** The save button for the current word: "Saved", disabled and marked
      exactly when there is a current word and it is already saved;
      otherwise "Save Word", enabled and unmarked. */
  function SaveButtonFor(current: Option<WordEntry>, saved: seq<string>): (b: SaveButton)
    ensures b.text == SAVED_LABEL <==> current.Some? && current.value.word in saved
    ensures b.text == SAVED_LABEL || b.text == SAVE_LABEL
    ensures b.disabled == b.marked == (b.text == SAVED_LABEL)
  {
    if current.Some? && current.value.word in saved then SaveButton(SAVED_LABEL, true, true)
    else SaveButton(SAVE_LABEL, false, false)
  }

  /** No word occurs twice. */
  predicate NoDuplicates(s: seq<string>) {
    forall i, j :: 0 <= i < j < |s| ==> s[i] != s[j]
  }

  /** Appending a word that is not yet there keeps the list duplicate-free. */
  lemma AppendFreshKeepsNoDuplicates(s: seq<string>, w: string)
    requires NoDuplicates(s) && w !in s
    ensures NoDuplicates(s + [w])
  {
  }
}
