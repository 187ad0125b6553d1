/** The shape of one element of the dictionary API's JSON response, as
    index.js reads it. Properties the code tests for presence are `Option`s. */
module Entry {
  import opened Wrappers

  /** One element of `phonetics`: a spelling and an audio URL, either absent. */
  datatype Phonetic = Phonetic(text: Option<string>, audio: Option<string>)

  /** One element of a meaning's `definitions`. */
  datatype Definition = Definition(definition: string, example: Option<string>)

  /** One element of `meanings`: a part of speech and three optional lists. */
  datatype Meaning = Meaning(
    partOfSpeech: string,
    definitions: Option<seq<Definition>>,
    synonyms: Option<seq<string>>,
    antonyms: Option<seq<string>>)

  /** One dictionary entry: the object `data[0]` of a successful lookup. */
  datatype WordEntry = WordEntry(
    word: string,
    phonetic: Option<string>,
    phonetics: Option<seq<Phonetic>>,
    meanings: Option<seq<Meaning>>,
    sourceUrls: Option<seq<string>>)
}
