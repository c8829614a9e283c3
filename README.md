# Retrieve-and-rank core of the AprendendoIC tutorial scripts

The repository's scripts fetch open educational resources (REAs) from the
MeCred search API, or take them from a fixed lesson catalogue. They embed a
text for each resource, score it against the user's query by cosine
similarity, and keep the best-scored ones. This Dafny project models the
deterministic part of that pipeline. Once the embedding model, cosine
similarity and `np.argsort` are taken as given, that part is:

- **curso/Rag.py** (module `Rag`): unwrapping the search reply (`results` of
  an object, a list as is, `[]` otherwise); extracting each record's `name`
  as embedding text; the `retrieve` loop that keeps the `top_k` best records
  and adds `relevancia` to each; and `formatacaoDadosMedCred`, which renders
  one line per record with literal defaults for missing fields. `retrieve`
  as a whole (`Rag.RetrieveReply`) renders every record before it extracts
  the names, so a record the formatter rejects stops it.
- **corrigido.py** (module `Materials`): the embedding text `name` plus
  `' ' + description` when the description is truthy; a list-valued `name`
  is extended in place, so the searched items change with it. Also `buscar_materia`,
  which keeps records whose score reaches `similaridade_minima` and stops
  after `topn` of them.
- **MinhaTentativa.py** (module `Lessons`): the four-lesson catalogue, the
  text `titulo. descricao` of each lesson, and the same `buscar_materia`
  with defaults `topn=3` and `similaridade_minima=0.3`.
- **AprendendoIA/aprendendo_api.py** (module `ViaCep`): `buscar_cep`. It
  cleans the CEP (postal code) by dropping `-` and `.`, builds the ViaCEP URL,
  and sorts the reply into address data or `None`.

Shared pieces live in `Json` (decoded JSON values, Python truthiness, the
`AttributeError`/`TypeError` results) and `Ranking`. `Ranking` holds the
argsort order as a permutation, the record extension
`{**rec, "relevancia": score}`, and the thresholded selection loop. That loop
is identical in corrigido.py and MinhaTentativa.py, so it is written once as
`Ranking.SelectAboveFloor` and both modules call it.

Modelling choices:
- Scores are `real`s. `np.argsort(similaridades)[::-1]` is an `order` given
  as a precondition: a permutation of `0..n-1`. The lemmas about ordering
  also require it to be non-increasing by score. No tie order is assumed.
- Each ranking loop appends first and only then tests `len(...) >= limit`.
  So it keeps `Cap(limit) = max(limit, 1)` records at most: a limit of zero
  or less still returns one record when there is one.
- An exception the scripts do not catch is an `Err` result, not a
  precondition. AttributeError: `.get` on a record that is not an object
  (including the strings a non-empty object or string `results` yields) and
  on a present `user` that is not an object, `null` included. TypeError:
  iterating a `results` that is null, a number or a boolean; `' ' +
  description` with a truthy description that is not a string; `+=` on a
  name that is neither a string nor a list (a list name is extended); and
  `"erro" in` a number, a boolean or null.
- Inside f-strings, Python's `str()` of a non-string value is a function
  parameter `str` of the formatter. String values are shown as they are.
- The HTTP request of `buscar_cep` is a parameter `fetch` from URL to
  `Outcome`. An `Outcome` is a status with a JSON body (or no JSON), a
  timeout, or another request failure.

## Model

| member | source | states |
|---|---|---|
| `Rag.Unwrap` | curso/Rag.py:27-33 | an object reply yields its `results` value, or `[]` when the key is absent; a list reply is returned unchanged; any other reply yields `[]` |
| `Rag.Records` | curso/Rag.py:34-37 | a list `results` yields its elements; an empty object or string yields none; a non-empty object or string raises AttributeError; null, a number or a boolean raises TypeError |
| `Rag.NameOf` | curso/Rag.py:38 | defined exactly for objects, where it is the `name` field or `[]` when absent |
| `Rag.UnwrapEnvelopes` | curso/Rag.py:27-33 | the enveloped form `{"results": xs}` and the bare list `xs` carry the same records; an empty object carries none |
| `Rag.ExtractNames` | curso/Rag.py:37-39 | it succeeds exactly when every record is an object, and otherwise raises AttributeError; on success there is one entry per record, in record order, each the record's `name` or `[]` when absent |
| `Rag.Retrieve` | curso/Rag.py:48-61 | for an order that is a permutation, the result has length `min(n, max(top_k, 1))` and is the first that many positions of the order, each record extended with its score |
| `Rag.TopK` | curso/Rag.py:48-60 | the kept records are the first `min(len(order), max(top_k,1))` positions of the order, each with exactly its keys plus `relevancia` set to its score |
| `Rag.RetrieveReply` | curso/Rag.py:26-61 | an unusable `results` raises its Records error; otherwise it succeeds exactly when every record renders at line 34 (each then an object), else AttributeError; on success it is the top-k of the records, `min(n, max(top_k,1))` of them |
| `Rag.TopKRanked` | curso/Rag.py:46-60 | with a non-increasing order, the kept records have non-increasing `relevancia`, no source position is kept twice, and the first kept score is at least every score |
| `Rag.Line` | curso/Rag.py:66-71 | a line renders exactly when the record is an object whose `user`, if present, is an object; otherwise AttributeError |
| `Rag.Join` | curso/Rag.py:73 | joining no lines gives `""`; otherwise the result starts with the first line and its length is the lines' total length plus one separator per gap |
| `Rag.JoinSnoc` | curso/Rag.py:73 | `"\n".join` grows at the end: one more line adds exactly one separator and the line |
| `Rag.FormatMedCred` | curso/Rag.py:63-73 | it succeeds exactly when every line can be rendered, and otherwise raises AttributeError; on success the output is one rendered line per record, in input order, joined with `"\n"`; an empty input gives `""` |
| `Rag.LineShape` | curso/Rag.py:71 | every line starts with `" Título do material: "` and the title, and ends with the relevance label, the relevance and `" \n"` |
| `Rag.LineFields` | curso/Rag.py:66-71 | each of title, views, likes, owner and relevance shows the record's value when present (a string as is, anything else through `str`) and otherwise its default; the owner is `Desconhecido` without `user` or without `user.name` |
| `Rag.LineDefaults` | curso/Rag.py:66-71 | a record with no fields renders `Sem título`, `Não descrito` twice, `Desconhecido` and `Erro` in their places |
| `Ranking.WithRelevance` | curso/Rag.py:52-55 | the extended record has `relevancia` equal to the score (a pre-existing one is overwritten); its keys are the old keys plus `relevancia`; every other key is unchanged |
| `Ranking.AttachRanked` | corrigido.py:48-58 | records taken along a score-descending index list carry non-increasing `relevancia` |
| `Ranking.Qualifying` | corrigido.py:51-53 | the kept positions are no more than the input, each in range, each with score at least the floor |
| `Ranking.QualifyingMembers` | corrigido.py:51-53 | a position is kept if and only if it is in the input and its score reaches the floor |
| `Ranking.QualifyingDistinct` | corrigido.py:48-53 | no position is kept twice when the order lists each position once |
| `Ranking.QualifyingAll` | corrigido.py:51-53 | when every score reaches the floor, nothing is filtered out |
| `Ranking.QualifyingIsPrefix` | corrigido.py:48-53 | along a non-increasing order, the qualifying positions form a prefix of the order |
| `Ranking.QualifyingGrows` | corrigido.py:51-60 | the positions kept from the first `j` entries of the order are a prefix of those kept from the whole order |
| `Ranking.Selected` | corrigido.py:49-61 | at most `max(topn,1)` records and no more than the order has, each with a `relevancia` at least the floor |
| `Ranking.SelectAboveFloor` | corrigido.py:45-61 | the loop returns exactly the first `max(topn, 1)` qualifying positions of the order, or all of them if there are fewer, each record extended with its score |
| `Ranking.SelectedProperties` | corrigido.py:48-60 | with a non-increasing order the result has length `min(max(topn,1), #qualifying)`; it is a prefix of the order with non-increasing `relevancia`; every `relevancia` reaches the floor |
| `Ranking.QualifyingOfPermutation` | corrigido.py:48-53 | over a permutation, each position qualifies exactly when its score reaches the floor, and qualifying positions are distinct |
| `Ranking.SelectedEmpty` | corrigido.py:53-73 | the result is empty (the caller's "Nenhuma aula encontrada" branch) if and only if no score reaches the floor |
| `Materials.AppendText` | corrigido.py:39 | `+=` succeeds exactly on a string or a list, else TypeError; a string gets the suffix, a list keeps its elements and gains one one-character string per suffix character |
| `Materials.TextFor` | corrigido.py:37-39 | a non-object item raises AttributeError; for an object it succeeds exactly when the description is falsy, or a string appended to a string or list name; a falsy description leaves the name (or `''`) as the text; every other failure is TypeError |
| `Materials.AfterText` | corrigido.py:37-39 | the item keeps its keys and every value except a list `name`, which becomes the text |
| `Materials.ItemsAfterTexts` | corrigido.py:35-40 | one item per input item, each the input item after its text is built |
| `Materials.ItemsAfterTextsChange` | corrigido.py:37-39 | an item with a string or missing `name` is unchanged; an item with a list `name` now has the text, still a list, as its `name` |
| `Materials.TextForStrings` | corrigido.py:36-40 | for a string or missing `name` and `description`, the text is the name (or `''`), followed by `' ' + description` exactly when the description is non-empty |
| `Materials.TextForListName` | corrigido.py:37-39 | for a list `name` and a non-empty string description, the text is the name's elements followed by one one-character string per character of `' ' + description` |
| `Materials.TextForBadDescription` | corrigido.py:38-39 | a truthy description that is not a string raises TypeError |
| `Materials.BuildTexts` | corrigido.py:35-40 | it succeeds exactly when every item's text can be built; on success there is one text per item, in item order, and the items are left as `ItemsAfterTexts` says; on failure the error is that of the first failing item |
| `Materials.SearchMaterials` | corrigido.py:45-61 | the result is the thresholded selection; it has at most `max(topn,1)` records, non-increasing `relevancia`, every `relevancia` at least `similaridade_minima`; it is empty iff no score reaches the floor |
| `Materials.BuildAndSearch` | corrigido.py:35-65 | the script fails exactly when some item's text cannot be built, with the first failure's error; otherwise it returns the thresholded selection over the items as the text loop left them, at most `max(topn,1)` in non-increasing `relevancia` |
| `Materials.DefaultSearchBound` | corrigido.py:45 | with the defaults `topn=5` and `similaridade_minima=0.3`, at most five materials are found, each with `relevancia` at least 0.3 |
| `Lessons.AsRecord` | MinhaTentativa.py:9-28 | a lesson is the dictionary with exactly `id`, `titulo` and `descricao`, holding its number and two strings |
| `Lessons.CatalogShape` | MinhaTentativa.py:8-29 | the catalogue has four lessons numbered 1 to 4 in order |
| `Lessons.LessonText` | MinhaTentativa.py:32 | the text is the title, then `". "`, then the description, and nothing more |
| `Lessons.LessonTexts` | MinhaTentativa.py:31-34 | there is one text per lesson |
| `Lessons.LessonTextsSplit` | MinhaTentativa.py:32 | each text is exactly the lesson's title, then `". "`, then its description, so both split back out |
| `Lessons.SearchLessons` | MinhaTentativa.py:40-55 | each lesson found is a catalogue lesson (its `id`, `titulo`, `descricao` kept) plus its `relevancia`, which reaches the floor; relevances are non-increasing; at most `max(topn,1)` are found |
| `Lessons.DefaultSearchBound` | MinhaTentativa.py:40 | with the defaults `topn=3` and `similaridade_minima=0.3`, at most three lessons are found, each with `relevancia` at least 0.3 |
| `ViaCep.RemoveAll` | AprendendoIA/aprendendo_api.py:152 | `replace(c, "")` never lengthens the string |
| `ViaCep.RemoveAllRemoves` | AprendendoIA/aprendendo_api.py:152 | after `replace(c, "")` no `c` remains |
| `ViaCep.RemoveAllAbsent` | AprendendoIA/aprendendo_api.py:152 | `replace(c, "")` on a string without `c` returns it unchanged |
| `ViaCep.CleanCep` | AprendendoIA/aprendendo_api.py:152 | the cleaned CEP contains no `-` and no `.` |
| `ViaCep.CleanCepKeepsTheRest` | AprendendoIA/aprendendo_api.py:152 | the cleaned CEP is the input filtered by "neither `-` nor `.`": every other character is kept, in order |
| `ViaCep.CleanCepIdempotent` | AprendendoIA/aprendendo_api.py:152 | cleaning twice is cleaning once |
| `ViaCep.CleanCepPlain` | AprendendoIA/aprendendo_api.py:152 | a CEP with neither separator is returned unchanged |
| `ViaCep.CleanCepDashed` | AprendendoIA/aprendendo_api.py:146-152 | a CEP in the dashed format `prefix-suffix` cleans to `prefix + suffix` |
| `ViaCep.CleanCepFormats` | AprendendoIA/aprendendo_api.py:146-152 | both documented formats, `"01310-100"` and `"01310100"`, clean to `"01310100"` |
| `ViaCep.CepUrl` | AprendendoIA/aprendendo_api.py:152-155 | the URL is the ViaCEP prefix, the CEP with every `-` and `.` dropped and all else kept in order, and `/json/` |
| `ViaCep.HasErro` | AprendendoIA/aprendendo_api.py:166 | `"erro" in` raises TypeError exactly for null, booleans and numbers; for an object it tests the keys, for a list the elements, for a string its substrings |
| `ViaCep.BuscarCep` | AprendendoIA/aprendendo_api.py:141-180 | the address is returned exactly when the request to the cleaned-CEP URL answers 200 with a JSON body that has no `erro`, and it is that body; an `erro` reply, a non-JSON body, another status, a timeout or another request failure gives `None`; a 200 body that is a number, boolean or null raises TypeError |
| `ViaCep.Classify` | AprendendoIA/aprendendo_api.py:159-180 | the data is returned iff the status is 200, the body is JSON and it has no `erro`; any other status gives `None`; a 200 JSON body that is a number, boolean or null raises TypeError, and only such a body does |
| `ViaCep.ClassifyObject` | AprendendoIA/aprendendo_api.py:162-170 | for an object body: status 200 without `erro` gives the object, `erro` gives `None`, another status gives `None` |
| `ViaCep.BuscarCepIgnoresFormatting` | AprendendoIA/aprendendo_api.py:152-160 | a CEP with or without separators requests the same URL and gets the same answer |

## Left out

- The sentence-embedding model (`SentenceTransformer.encode`) and `cosine_similarity` are black boxes. Their output is the `scores` parameter. Float rounding, NaN scores and float32-versus-float64 comparison are not modelled.
- `np.argsort(...)[::-1]` is a library sort. It is the `order` precondition (a permutation; non-increasing where a lemma needs it). Which of several equal scores comes first is not modelled, because the default argsort is not stable.
- With zero records the scripts still call the embedding model and `cosine_similarity` on an empty batch, and the library may raise there. The model just returns an empty result.
- HTTP calls (`buscarReaMedcred`, `buscar_rea`, `requests.get`), `raise_for_status`, `load_dotenv`/`HF_TOKEN`, `input()` and every `print` are I/O and are not modelled. In `buscar_cep` the request is the `fetch` parameter.
- In curso/Rag.py, `dadosTodosDicionario` and `dadosTodosTexto` are written and never read, so they are not modelled. The formatter call of line 34 is modelled for the exceptions it raises (`Rag.RetrieveReply`); the string it builds is only printed.
- `Rag.ExtractNames`: the operation takes the list of records. A `results` value that is not a list is handled before it, by `Rag.Records` inside `Rag.RetrieveReply`. An empty object or string gives no records, so both loops run zero times. On a non-empty object or string, and on null, a number or a boolean, line 34 raises first.
- `Rag.Retrieve`, `Ranking.SelectAboveFloor`: these take records already known to be objects. In `retrieve`, a non-object record, or one whose `user` is present but not an object, makes the line-34 formatter raise before the names are extracted; `Rag.RetrieveReply` states this.
- `Rag.RetrieveReply`: the similarity scores and their argsort stay parameters. That they come from the extracted names is not modelled.
- `Rag.FormatMedCred`: Python's `str()` of numbers, lists and objects is the `str` parameter. Its exact text (float repr, quoting) is not modelled.
- `Materials.BuildTexts`: `response.json()` is taken to be the list of items the script iterates over; other reply shapes are not modelled. The in-place extension of a list-valued `name` (`texto` is the item's own list object) is modelled as a value: the method returns the items as the loop leaves them, and `Materials.BuildAndSearch` searches those. Aliasing between items is not modelled, since decoded JSON never shares a list.
- `ViaCep.Classify`: a body that is not JSON is taken to make `resposta.json()` raise a decoding error that the `RequestException` handler catches, as in requests 2.27 and later.
- tutorial_embeddings.py, AprendendoIA/tutorial_slm_treinamento.py, AprendendoIA/slm_exemplo_simples.py and the rest of AprendendoIA/aprendendo_api.py are library demonstrations with no logic of their own. They are not part of this model.
