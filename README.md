# jina-embeddings-cog: model discovery and prediction dispatch

This project models the logic of `predict.py`, the Cog predictor that serves
jina text-embedding models. Four things are modelled.

- **Model registry**: at import time the module scans the working directory. It keeps, in scan order, the name of every entry that is a directory and whose name starts with `jina-embedding`. The default of the `model` parameter is the last registered name, and an empty registry raises `IndexError` while the class is being defined.
- **Format table**: the `FORMATS` pairs (`base64` → `map_to_b64`, `array` → `map_to_list`), the dictionary `FORMATS_MAP` built from them, the parameter's choices and its default (`base64`).
- **Setup**: `Predictor.setup` fills `self.models` with one loaded model per registered name.
- **Predict**: `predict` does its steps in this order. It looks up the format (`KeyError` if unknown). It parses `json_text` when that is non-empty (a parsed string `S` becomes the batch `[S]`, any other value is passed on as it is). Without `json_text` the batch is `[text]`. It then looks up the model (`KeyError` if unknown), encodes the batch one row per item, and turns every row into a cell of the chosen format.

Modules: `Wrappers` and `Errors` (`wrappers.dfy`) hold the result types and the exceptions. `Registry` (`registry.dfy`) holds the scan and the default model. `Formats` (`formats.dfy`) holds the format table and the transforms. `Prediction` (`prediction.dfy`) holds the JSON value shape, batch normalisation, encoding, the `Predictor` class and a `Startup` method that runs the import-time scan and then `setup`.

The foreign calls are parameters and type parameters:
- the directory scan is an input `seq<Entry>` of `(name, isDir)` pairs;
- `SentenceTransformer(mdl).cuda().eval()` is `load: string -> H`, where `H` is an opaque handle type;
- `json.loads` is `parse: string -> Option<JsonValue>`, where `None` stands for a `JSONDecodeError`;
- the library's `encode` is `embed: (H, JsonValue) -> R`, which gives the row computed for one batch item.

Output cells are tagged `Base64Of(row)` or `ArrayOf(row)`. They record which transform was applied to which row, not the bytes it produces.

## Model

| member | source | states |
|---|---|---|
| Registry.DiscoverModels | predict.py:7-16 | the scan loop builds exactly the filter `Discovered` of the entries (the prefix-carrying directory names, in scan order) |
| Registry.Discovered | predict.py:12-16 | the registry is no longer than the scan, and every registered name starts with `jina-embedding` |
| Registry.DiscoveredMembership | predict.py:14-16 | membership in MODELS iff an entry with that name is a directory and has the prefix (both directions), so non-directories and directories without the prefix are excluded |
| Registry.DiscoveredIndices | predict.py:12-16 | MODELS is an order-preserving subsequence of the entry names: strictly increasing positions, each a model folder with that name, and every model folder's position among them |
| Registry.DefaultModel | predict.py:51 | `MODELS[-1]`: the last name when MODELS is non-empty, IndexError otherwise |
| Registry.DefaultModelIsLastMatch | predict.py:51 | startup fails with IndexError exactly when no entry is a model folder; otherwise the default model is the name of the last model folder in scan order |
| Registry.ScanExample | predict.py:12-16 | scanning `jina-embedding-s`, `jina-embedding-b` and `notes/` registers exactly the first two, in that order |
| Formats.MapToB64 | predict.py:26-27 | one base64 cell per row, in row order |
| Formats.MapToList | predict.py:30-31 | one list cell per row, in row order |
| Formats.Transform | predict.py:74-77 | the chosen transform keeps length and order, and every cell is of the kind the format names |
| Formats.DictOf | predict.py:38 | `dict(pairs)` has exactly the keys of the pairs, and a key whose pair is the last with that key maps to that pair's value |
| Formats.FormatsMap | predict.py:34-38 | FORMATS_MAP, built by `dict` from the FORMATS pairs, has exactly the keys `base64` and `array`, bound to the two transforms |
| Formats.Lookup | predict.py:69 | `base64` and `array` give their transforms; every other key raises KeyError with that key |
| Formats.Choices | predict.py:64 | the `output_format` choices are `["base64", "array"]`, in table order |
| Formats.DefaultFormat | predict.py:63 | the default `output_format` is `base64`, an offered choice that the lookup accepts |
| Formats.ChoicesAreLookupKeys | predict.py:61-69 | a key is offered as a choice iff the lookup accepts it |
| Prediction.Batch | predict.py:71-77 | non-empty `json_text` is parsed (a decode error if the parser rejects it); a parsed string S becomes `[S]`, another parsed value is the batch itself; with empty `json_text` the batch is `[text]` |
| Prediction.Encode | predict.py:74-77 | a list batch gives one row per item in item order; a non-list batch is refused by the library |
| Prediction.Predictor.Setup | predict.py:41-46 | after setup the model table's keys are exactly the registered names, each bound to its loaded model |
| Prediction.Predictor.Predict | predict.py:67-77 | success iff the format is offered, the batch is a list and the model is loaded; then one cell per batch item, in order, cell i holding the loaded model's row for item i in the chosen format |
| Prediction.UnknownFormatFailsFirst | predict.py:69 | an unknown `output_format` raises KeyError whatever the model, text, JSON, parser and encoder are, so no model or encode call is reached |
| Prediction.ParseErrorFailsBeforeModel | predict.py:71-72 | with a valid format, unparsable `json_text` raises the decode error whatever the model |
| Prediction.UnknownModelFails | predict.py:74-77 | with a valid format and a batch, an unknown model raises KeyError with that name |
| Prediction.JsonTextTakesPrecedence | predict.py:71-77 | with non-empty `json_text` the result does not depend on `text` |
| Prediction.JsonStringActsAsText | predict.py:73-77 | `json_text` holding the string S gives the same result as `text = S` with empty `json_text` |
| Prediction.PlainTextGivesOneCell | predict.py:77 | plain text with a known model and format yields exactly one cell: the row of `text` |
| Prediction.JsonListGivesOneCellPerItem | predict.py:75 | a parsed JSON list of N items yields N cells, cell i holding the row of item i |
| Prediction.Startup | predict.py:12-46 | an empty scan fails with IndexError before anything is loaded; otherwise the model table holds exactly the discovered names with their loaded models, and the returned default is `MODELS[-1]`, the last discovered folder, which is one of them |

## Left out

- The directory scan itself (`os.getcwd`, `os.scandir`, predict.py:10-12) is filesystem I/O. The scanned entries are an input sequence instead.
- Model loading, GPU placement and evaluation mode (predict.py:46) are foreign calls. They are the parameter `load`, which always succeeds. A failing load, which would abort setup, is not modelled.
- `json.loads` (predict.py:72) is a foreign parser, modelled as the parameter `parse`.
- The JSON value shape is reduced to a string, a list, or anything else. `predict` itself only tells a string apart from everything else. The list case is kept because `Encode` models the library as accepting only lists.
- The numerics of `encode` and `ndarray.tolist()` (predict.py:31, 74-77) are floating-point library code and are not modelled. Only "one row per batch item, in order" is kept.
- A list item the library cannot embed (a number inside a JSON list) raises inside the library. That error is not modelled, because `embed` is total.
- A parsed value that is not a list is taken to be refused by the library (`EncodeError`). What the library really does with such a value (it may wrap a scalar) is not part of this model.
- `base64.b64encode` of a row's raw float buffer (predict.py:27) depends on the machine's byte layout. The codec is not modelled, and neither is the round trip between the base64 and array outputs.
- The Cog `Input` schema (predict.py:50-65) is not modelled. In particular, Cog's own check that `model` and `output_format` are among their choices is left out. `Predict` is modelled as if called directly, so the KeyErrors of predict.py:69 and 74-77 are the errors it reports.
- Calling `predict` before `setup` raises AttributeError in Python, because `self.models` does not exist yet. In the model, a fresh predictor has an empty table, so such a call fails with KeyError instead.
- The informational `print` at predict.py:45, concurrency and serving concerns are out of scope.
