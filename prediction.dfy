/**
  The predictor: setup loads one model per registered name into a table,
  and predict looks up the output format, normalises the text input into
  a batch, looks up the model, encodes the batch and formats the rows.

  The foreign parts are parameters: `load` stands for loading a model onto
  the accelerator, `parse` for json.loads (None is a JSONDecodeError) and
  `embed` for the row the embedding library computes for one batch item.
 */
module Prediction {
  import opened Wrappers
  import opened Errors
  import opened Registry
  import opened Formats

  /** The shape of a value json.loads can return, as far as predict tells it apart. */
  datatype JsonValue = JStr(s: string) | JArr(items: seq<JsonValue>) | JOther

  /**
    The batch handed to encode. A non-empty json_text wins over text; a
    parsed string S becomes the batch [S], any other parsed value is passed
    on as it is; without json_text the batch is [text].
   */
  function Batch(text: string, jsonText: string, parse: string -> Option<JsonValue>): (r: Result<JsonValue, Error>)
    ensures r.Failure? <==> jsonText != "" && parse(jsonText).None?
    ensures r.Failure? ==> r.error == JsonDecodeError
    ensures r.Success? && jsonText == "" ==> r.value == JArr([JStr(text)])
    ensures r.Success? && jsonText != "" ==>
      r.value == if parse(jsonText).value.JStr? then JArr([parse(jsonText).value]) else parse(jsonText).value
  {
    if jsonText != "" then
      match parse(jsonText)
      case None => Failure(JsonDecodeError)
      case Some(parsed) =>
        if parsed.JStr? then Success(JArr([parsed])) else Success(parsed)
    else
      Success(JArr([JStr(text)]))
  }

  /**
    model.encode(batch): one row per item of a list batch, in item order;
    the library refuses a batch that is not a list.
   */
  function Encode<H, R>(h: H, batch: JsonValue, embed: (H, JsonValue) -> R): (r: Result<seq<R>, Error>)
    ensures r.Success? <==> batch.JArr?
    ensures r.Failure? ==> r.error == EncodeError
    ensures r.Success? ==> |r.value| == |batch.items|
    ensures r.Success? ==> forall i :: 0 <= i < |batch.items| ==> r.value[i] == embed(h, batch.items[i])
  {
    match batch
    case JArr(items) => Success(seq(|items|, i requires 0 <= i < |items| => embed(h, items[i])))
    case _ => Failure(EncodeError)
  }

  class Predictor<H> {
    /** self.models: the loaded model of every registered name. */
    var models: map<string, H>

    constructor ()
      ensures models == map[]
    {
      models := map[];
    }

    /** setup: load every name of the registry into the model table. */
    method Setup(names: seq<string>, load: string -> H)
      modifies this
      ensures models.Keys == set n | n in names
      ensures forall n :: n in models ==> models[n] == load(n)
    {
      models := map[];
      for i := 0 to |names|
        invariant models.Keys == set n | n in names[..i]
        invariant forall n :: n in models ==> models[n] == load(n)
      {
        assert names[..i + 1] == names[..i] + [names[i]];
        models := models[names[i] := load(names[i])];
      }
      assert names[..|names|] == names;
    }

    /**
      predict: the format is looked up first, then json_text is parsed,
      then the model is looked up, and only then is the batch encoded.
      It succeeds exactly when the format is offered, the batch is a list and
      the model is loaded; it then returns one cell per batch item, in item
      order, cell i holding the loaded model's row for item i in the chosen format.
     */
    function Predict<R>(model: string, text: string, jsonText: string, outputFormat: string,
                        parse: string -> Option<JsonValue>, embed: (H, JsonValue) -> R): (r: Result<seq<Cell<R>>, Error>)
      reads this
      ensures r.Success? <==> outputFormat in Choices() && Batch(text, jsonText, parse).Success?
                              && Batch(text, jsonText, parse).value.JArr? && model in models
      ensures r.Success? ==>
        var items := Batch(text, jsonText, parse).value.items;
        && |r.value| == |items|
        && (forall i :: 0 <= i < |items| ==> r.value[i].row == embed(models[model], items[i]))
        && (forall i :: 0 <= i < |items| ==> (r.value[i].Base64Of? <==> outputFormat == "base64"))
    {
      var f :- Lookup(outputFormat);
      var batch :- Batch(text, jsonText, parse);
      if model !in models then Failure(KeyError(model))
      else
        var rows :- Encode(models[model], batch, embed);
        Success(Transform(f, rows))
    }
  }

  /** An unknown output_format fails with KeyError whatever the other arguments are. */
  lemma UnknownFormatFailsFirst<H, R>(p: Predictor<H>, model: string, text: string, jsonText: string, outputFormat: string,
                                      parse: string -> Option<JsonValue>, embed: (H, JsonValue) -> R)
    requires outputFormat !in Choices()
    ensures p.Predict(model, text, jsonText, outputFormat, parse, embed) == Failure(KeyError(outputFormat))
  {
  }

  /** With a valid format, a json_text that does not parse fails before the model is looked up. */
  lemma ParseErrorFailsBeforeModel<H, R>(p: Predictor<H>, model: string, text: string, jsonText: string, outputFormat: string,
                                         parse: string -> Option<JsonValue>, embed: (H, JsonValue) -> R)
    requires outputFormat in Choices()
    requires jsonText != "" && parse(jsonText).None?
    ensures p.Predict(model, text, jsonText, outputFormat, parse, embed) == Failure(JsonDecodeError)
  {
  }

  /** With a valid format and a batch, an unknown model fails with KeyError before any encoding. */
  lemma UnknownModelFails<H, R>(p: Predictor<H>, model: string, text: string, jsonText: string, outputFormat: string,
                                parse: string -> Option<JsonValue>, embed: (H, JsonValue) -> R)
    requires outputFormat in Choices()
    requires jsonText == "" || parse(jsonText).Some?
    requires model !in p.models
    ensures p.Predict(model, text, jsonText, outputFormat, parse, embed) == Failure(KeyError(model))
  {
  }

  /** A non-empty json_text makes text irrelevant. */
  lemma JsonTextTakesPrecedence<H, R>(p: Predictor<H>, model: string, text1: string, text2: string, jsonText: string,
                                      outputFormat: string, parse: string -> Option<JsonValue>, embed: (H, JsonValue) -> R)
    requires jsonText != ""
    ensures p.Predict(model, text1, jsonText, outputFormat, parse, embed)
         == p.Predict(model, text2, jsonText, outputFormat, parse, embed)
  {
  }

  /** A json_text holding the string S gives the same result as text = S with no json_text. */
  lemma JsonStringActsAsText<H, R>(p: Predictor<H>, model: string, text: string, jsonText: string, s: string,
                                   outputFormat: string, parse: string -> Option<JsonValue>, embed: (H, JsonValue) -> R)
    requires jsonText != "" && parse(jsonText) == Some(JStr(s))
    ensures p.Predict(model, text, jsonText, outputFormat, parse, embed)
         == p.Predict(model, s, "", outputFormat, parse, embed)
  {
  }

  /** Plain text with a known model and format yields exactly one cell, the row of [text]. */
  lemma PlainTextGivesOneCell<H, R>(p: Predictor<H>, model: string, text: string, outputFormat: string,
                                    parse: string -> Option<JsonValue>, embed: (H, JsonValue) -> R)
    requires outputFormat in Choices() && model in p.models
    ensures var r := p.Predict(model, text, "", outputFormat, parse, embed);
      r.Success? && |r.value| == 1 && r.value[0].row == embed(p.models[model], JStr(text))
  {
  }

  /** A json_text holding a list of N values yields N cells. */
  lemma JsonListGivesOneCellPerItem<H, R>(p: Predictor<H>, model: string, text: string, jsonText: string,
                                          items: seq<JsonValue>, outputFormat: string,
                                          parse: string -> Option<JsonValue>, embed: (H, JsonValue) -> R)
    requires outputFormat in Choices() && model in p.models
    requires jsonText != "" && parse(jsonText) == Some(JArr(items))
    ensures var r := p.Predict(model, text, jsonText, outputFormat, parse, embed);
      r.Success? && |r.value| == |items|
      && forall i :: 0 <= i < |items| ==> r.value[i].row == embed(p.models[model], items[i])
  {
  }

  /**
    Process start: scan for model folders, evaluate the default model (an
    empty scan raises IndexError before anything is loaded), then create the
    predictor and run setup on the registry.
   */
  method Startup<H>(entries: seq<Entry>, load: string -> H) returns (r: Result<(Predictor<H>, string), Error>)
    ensures r.Failure? <==> forall i :: 0 <= i < |entries| ==> !IsModelDir(entries[i])
    ensures r.Failure? ==> r.error == IndexError
    ensures r.Success? ==> fresh(r.value.0)
    ensures r.Success? ==> r.value.0.models.Keys == set n | n in Discovered(entries)
    ensures r.Success? ==> forall n :: n in r.value.0.models ==> r.value.0.models[n] == load(n)
    ensures r.Success? ==> r.value.1 in r.value.0.models
    ensures r.Success? ==> DefaultModel(Discovered(entries)) == Success(r.value.1)
  {
    var names := DiscoverModels(entries);
    var last := DefaultModelIsLastMatch(entries);
    var default := DefaultModel(names);
    if default.Failure? {
      return Failure(default.error);
    }
    var p := new Predictor();
    p.Setup(names, load);
    r := Success((p, default.value));
  }
}
