# fotovoltaica-ai: the retrieval-and-prompt core of `app.py`

`app.py` is a Streamlit page that answers questions about photovoltaic energy.
It loads the text of every PDF in a folder into a dict `knowledge_base`
(file name to extracted text). For each question it keeps the documents whose
lower-cased text contains the lower-cased question. It quotes the first 2000
characters of each such document in a context, puts the context and the
question into a fixed Spanish prompt, sends the prompt to a language model and
shows the answer with the first matching file name as its source.

This project models the part between loading and the model call:

- `text.dfy`, module `Text`: the Python string built-ins the code uses.
  These are `str.lower`, the substring test `in`, the slice `s[:n]` and
  `str.join`.
- `knowledge.dfy`, module `Knowledge`: the knowledge base and
  `search_documents`. A dict iterates in insertion order and holds each key
  once, so the knowledge base is a `seq<(string, string)>`. `UniqueKeys` states
  that no name repeats. The search is a method with a loop, proved equal to the
  specification function `Search`. Lemmas about `Search` state membership,
  order, uniqueness and the first result.
- `compose.dfy`, module `Compose`: the context blocks, their join and the prompt
  template. The template is a fixed opening, the context, a fixed middle, the
  query and a fixed closing. `ParsePrompt` reads a prompt back into context and
  query. It is the inverse the prompt's contract is stated against.
- `pipeline.dfy`, module `Pipeline`: the branching at app.py:45-71 lifted into
  the outcome `NoQuery | NoResults | Answer(source, prompt)`. The language
  model is a function parameter, and what the user sees is a `Report`.

`app.py` has no chunking, ranking or index: it searches by plain substring
match, and the model does the same.

The prompt at app.py:51-57 is an f-string in plain (not triple) double quotes whose literal
text runs over several lines. Python rejects that, so the file does not parse
as written. The model uses the evident template: the instruction line, a blank
line, the context, a blank line, `Pregunta: <query>`, a blank line and
`Respuesta:`, with `"\n"` line breaks.

## Model

| member | source | states |
|---|---|---|
| `Text.LowerChar` | app.py:34 | the lowered character is never a capital A-Z or Latin-1 capital; non-capitals are unchanged; capitals move up by 32 code points |
| `Text.Lower` | app.py:34 | lower-casing keeps the length and lowers every character on its own |
| `Text.LowerIdempotent` | app.py:34 | lowering an already lowered string changes nothing |
| `Text.OccursPastHead` | app.py:34 | when the query is not at the first offset, it does not occur at offset 0, it occurs at each offset `i >= 1` of the text exactly when it occurs at `i - 1` in the text after the first character, and so it occurs in the text exactly when it occurs in the text after the first character |
| `Text.Contains` | app.py:34 | Python's `needle in hay` holds exactly when `needle` is a contiguous slice of `hay` at some offset (both directions; this includes the empty needle) |
| `Text.Truncate` | app.py:50 | `s[:n]` is a prefix of `s` of length `min(n, len(s))` |
| `Text.Join` | app.py:50 | `sep.join(parts)` is empty for no parts; otherwise it starts with the first part and ends with the last |
| `Text.JoinLength` | app.py:50 | a join is exactly as long as its parts together plus one separator between each two neighbours |
| `Text.JoinSplit` | app.py:50 | joining two non-empty lists equals joining each and putting one separator between them |
| `Text.JoinAround` | app.py:50 | in a join, part `k` stands between the join of the earlier parts and the join of the later parts, with exactly one separator on each side that has a neighbour |
| `Knowledge.Matches` | app.py:34 | `query.lower() in content.lower()` holds exactly when the lowered query occurs as a contiguous substring of the lowered text |
| `Knowledge.AsMapLookup` | app.py:33 | with unique names, the dict the sequence stands for maps each stored name to its stored text |
| `Knowledge.Hits` | app.py:33-35 | every recorded match position is a position of the knowledge base |
| `Knowledge.Search` | app.py:31-36 | reference for the search: an entry is in the result exactly when it is stored and its text matches; the result is no longer than the knowledge base (order and positions: `SearchAtHits`, `HitsIncreasing`, `HitsExact`) |
| `Knowledge.SearchAtHits` | app.py:33-35 | result `k` is the stored entry at the `k`-th matching position, unchanged |
| `Knowledge.HitsIncreasing` | app.py:33-35 | matching positions rise strictly, so results keep the stored order and no stored position is used twice (unique names: `SearchUniqueKeys`) |
| `Knowledge.HitsExact` | app.py:33-35 | a position is among the matching positions exactly when its text matches |
| `Knowledge.SearchUniqueKeys` | app.py:33-35 | a result drawn from a dict names each document at most once |
| `Knowledge.SearchStoredContent` | app.py:35 | each result carries exactly the text stored under its name, with no truncation or lower-casing |
| `Knowledge.FirstResult` | app.py:46-48 | the search is empty exactly when no stored text matches; otherwise the first result is the first matching entry in stored order |
| `Knowledge.SearchDocuments` | app.py:31-36 | the loop returns `Search(kb, query)`: exactly the stored matching entries, unique when the names are, and nothing for an empty knowledge base |
| `Compose.Block` | app.py:50 | a block is `Documento: <doc>` and `Contenido: ` on a new line, followed by a prefix of the text of length `min(2000, len(text))` |
| `Compose.ShortContentQuotedWhole` | app.py:50 | a text of at most 2000 characters is quoted whole |
| `Compose.Blocks` | app.py:50 | one block per result, in result order |
| `Compose.ContextAround` | app.py:50 | the block of result `k` stands in the context between the earlier and later results' context, separated from each neighbour by one `"\n\n"` |
| `Compose.ContextSmall` | app.py:50 | no results give an empty context; one result gives just its block |
| `Compose.Context` | app.py:50 | the context is empty exactly when there are no results; otherwise it opens with the first result's `Documento:` label and ends with the last result's block (each block's place: `ContextAround`) |
| `Compose.FillLayout` | app.py:51-57 | a filled template starts with the opening, has the context right after it, then the middle and the query, and ends with the closing |
| `Compose.FillReadsBack` | app.py:51-57 | reading a filled template back with the context's length gives the context and query it was filled with |
| `Compose.UnfillSound` | app.py:51-57 | any text that reads back to a context and query is exactly the template filled with them |
| `Compose.Prompt` | app.py:51-57 | the prompt opens with the instruction and a blank line, has the context right after them, then `"\n\nPregunta: "` and the query, ends with `"\n\nRespuesta:"`, and reads back to exactly its context and query |
| `Compose.ParsePromptSound` | app.py:51-57 | any text that reads back to a context and query is exactly the prompt built from them |
| `Pipeline.Decide` | app.py:45-57 | an empty query gives `NoQuery`; no results give `NoResults`; otherwise the source is the first result's name and the prompt is the template filled with the results' context and the query, which reads back to them |
| `Pipeline.Respond` | app.py:45-71 | `NoQuery` exactly for the empty query; `NoResults` exactly when no stored text matches; otherwise the source is the first matching file name and the prompt is built from the search results |
| `Pipeline.Present` | app.py:59-71 | nothing is shown for no query; the fixed warning is shown exactly for no results; the source and answer are shown exactly when the model completes; otherwise the error is shown |
| `Pipeline.NoModelCallWithoutAnswer` | app.py:45-71 | without an `Answer` outcome the report does not depend on the model at all |
| `Pipeline.ModelSeesOnlyThePrompt` | app.py:59-67 | with an `Answer` outcome the report depends on the model only through its reply to that prompt's request |

## Left out

- `load_documents` (app.py:17-25) lists a folder and extracts PDF text with `pdfplumber`. That is I/O and a foreign library, so the knowledge base is an input sequence.
- The OpenAI client (app.py:8-12) and the network call (app.py:60-65) are a foreign API. The model is a parameter of type `Request -> Completion`.
- The Streamlit calls `st.title`, `st.write`, `st.text_input`, `st.warning` and `st.error` (app.py:39-43, 66-71) are presentation. They are reduced to the `Report` datatype.
- Text.LowerChar, Text.Lower: lowers only A-Z and the Latin-1 capitals U+00C0-U+00DE (without U+00D7), which is what `str.lower` does for them. Other Unicode case mappings are not modelled, including those that change the length.
- Pipeline.Present: an exception raised while reading the reply at app.py:67 happens after the source was already written at app.py:66. The model has no such partial output: any failure of the call is one `Failed` completion, and the error text is `str(e)` taken as given.
- Pipeline.MakeRequest: `client.completions.create` is called with chat-style `messages`, which the completions endpoint does not take. The model records the request as written and does not model how the API responds to it.
