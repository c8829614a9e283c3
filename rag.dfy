/** The retrieve-and-rank core of curso/Rag.py: unwrapping the MeCred
    search reply, extracting each resource's `name` as embedding text,
    keeping the `top_k` best-scored resources, and rendering them with
    `formatacaoDadosMedCred`. The sentence-embedding model, cosine
    similarity and `np.argsort` are outside the model: their results arrive
    as `scores` and `order`. */
module Rag {
  import opened Json
  import opened Ranking

  /** The records of a search reply: the `results` of an object, a list as
      it is, and nothing for any other shape. */
  function Unwrap(reply: Value): (records: Value)
    ensures reply.Dict? && "results" in reply.fields ==> records == reply.fields["results"]
    ensures reply.Dict? && "results" !in reply.fields ==> records == List([])
    ensures reply.List? ==> records == reply
    ensures !reply.Dict? && !reply.List? ==> records == List([])
  {
    match reply
    case Dict(m) => Get(m, "results", List([]))
    case List(_) => reply
    case _ => List([])
  }

  /** Both reply shapes the endpoint may use carry the same records. */
  lemma UnwrapEnvelopes(xs: seq<Value>)
    ensures Unwrap(Dict(map["results" := List(xs)])) == List(xs)
    ensures Unwrap(List(xs)) == List(xs)
    ensures Unwrap(Dict(map[])) == List([])
  {
  }

  /** `dados.get('name', [])`; `None` when `dados` has no `.get`. */
  function NameOf(dados: Value): (r: Option<Value>)
    ensures r.Some? <==> dados.Dict?
    ensures r.Some? ==> r.value == if "name" in dados.fields then dados.fields["name"] else List([])
  {
    match dados
    case Dict(m) => Some(Get(m, "name", List([])))
    case _ => None
  }

  /** The loop that builds `dadosMedcredTexto`: one entry per record, in
      record order, each the record's `name` or `[]` when it has none. An
      entry that is not an object stops the loop with AttributeError. */
  method ExtractNames(records: seq<Value>) returns (r: Result<seq<Value>>)
    ensures r.Ok? <==> forall k :: 0 <= k < |records| ==> records[k].Dict?
    ensures r.Err? ==> r.error == AttributeError
    ensures r.Ok? ==> |r.value| == |records|
    ensures r.Ok? ==> forall k :: 0 <= k < |records| ==>
      r.value[k] == if "name" in records[k].fields then records[k].fields["name"] else List([])
  {
    var texto: seq<Value> := [];
    for k := 0 to |records|
      invariant |texto| == k
      invariant forall j :: 0 <= j < k ==> records[j].Dict? && NameOf(records[j]) == Some(texto[j])
    {
      var nome := NameOf(records[k]);
      if nome.None? {
        return Err(AttributeError);
      }
      texto := texto + [nome.value];
    }
    return Ok(texto);
  }

  /** The `top_k` best positions of a descending order; at least one,
      because the length test follows the append. */
  function TopK(items: seq<Record>, scores: seq<real>, order: seq<nat>, topK: int): (r: seq<Record>)
    requires |scores| == |items| && InRange(order, |items|)
    ensures |r| == Min(|order|, Cap(topK))
    ensures forall k :: 0 <= k < |r| ==>
      r[k].Keys == items[order[k]].Keys + {Relevancia} && r[k][Relevancia] == Float(scores[order[k]]) &&
      forall key :: key in items[order[k]] && key != Relevancia ==> r[k][key] == items[order[k]][key]
  {
    Attach(items, scores, Take(order, Cap(topK)))
  }

  /** The selection loop of `retrieve`: walk the positions in `order`,
      extend each record with its score as `relevancia`, append, and stop
      once `len(topKtotal) >= top_k`. */
  method Retrieve(items: seq<Record>, scores: seq<real>, order: seq<nat>, topK: int)
    returns (topKtotal: seq<Record>)
    requires |scores| == |items| && IsPermutation(order, |items|)
    ensures |topKtotal| == Min(|items|, Cap(topK))
    ensures topKtotal == TopK(items, scores, order, topK)
  {
    topKtotal := [];
    var i := 0;
    while i < |order|
      invariant 0 <= i <= |order|
      invariant i < Cap(topK)
      invariant topKtotal == Attach(items, scores, order[..i])
    {
      var indx := order[i];
      var similaridade := scores[indx];
      AttachSnoc(items, scores, order[..i], indx);
      assert order[..i] + [indx] == order[..i + 1];
      topKtotal := topKtotal + [WithRelevance(items[indx], similaridade)];
      if |topKtotal| >= topK {
        return;
      }
      i := i + 1;
    }
    assert order[..i] == order;
  }

  /** With scores sorted best first, the kept resources are the best ones:
      non-increasing `relevancia`, the first one scoring at least as high as
      any resource, and no resource kept twice. */
  lemma TopKRanked(items: seq<Record>, scores: seq<real>, order: seq<nat>, topK: int)
    requires |scores| == |items| && IsPermutation(order, |items|)
    requires Descending(order, scores)
    ensures var r := TopK(items, scores, order, topK);
      && NonIncreasingRelevance(r)
      && Distinct(Take(order, Cap(topK)))
      && (|items| > 0 ==> |r| > 0 && forall p :: 0 <= p < |items| ==> r[0][Relevancia] == Float(scores[order[0]]) && scores[order[0]] >= scores[p])
  {
    var t := Take(order, Cap(topK));
    AttachRanked(items, scores, t);
    forall p | 0 <= p < |items| ensures scores[order[0]] >= scores[p] {
      assert p in order;
      var j :| 0 <= j < |order| && order[j] == p;
      if j > 0 {
        assert scores[order[0]] >= scores[order[j]];
      }
    }
  }

  /** `dados.get(key, default)` as an f-string shows it: strings as they
      are, other values through `str`. */
  function Shown(fields: Record, key: string, default: string, str: Value -> string): string
  {
    if key in fields then Formatted(fields[key], str) else default
  }

  /** A value inside an f-string: a string as it is, anything else through
      `str`. */
  function Formatted(v: Value, str: Value -> string): string
  {
    if v.Str? then v.s else str(v)
  }

  const TitlePrefix: string := " Título do material: "
  const LineEnd: string := " \n"

  /** One line of `formatacaoDadosMedCred`. `str` stands for Python's
      `str()` of a non-string value. AttributeError when the record, or its
      `user`, is present but not an object. */
  function Line(dados: Value, str: Value -> string): (r: Result<string>)
    ensures r.Ok? <==> dados.Dict? && ("user" in dados.fields ==> dados.fields["user"].Dict?)
    ensures r.Err? ==> r.error == AttributeError
  {
    match dados
    case Dict(m) =>
      var user := Get(m, "user", Dict(map[]));
      if !user.Dict? then Err(AttributeError)
      else
        Ok(TitlePrefix + Shown(m, "name", "Sem título", str)
           + ", views do material: " + Shown(m, "views", "Não descrito", str)
           + ", likes do material: " + Shown(m, "likes", "Não descrito", str)
           + ", dono do material: " + Shown(user.fields, "name", "Desconhecido", str)
           + ", relevância em relação ao tema: " + Shown(m, "relevancia", "Erro", str)
           + LineEnd)
    case _ => Err(AttributeError)
  }

  /** The characters in all of `lines` together. */
  function TotalLength(lines: seq<string>): nat
  {
    if lines == [] then 0 else |lines[0]| + TotalLength(lines[1..])
  }

  /** `sep.join(lines)`: every line once, in order, with one separator
      between neighbours and none at either end. */
  function Join(lines: seq<string>, sep: string): (r: string)
    ensures lines == [] ==> r == ""
    ensures lines != [] ==> |r| == TotalLength(lines) + (|lines| - 1) * |sep|
    ensures lines != [] ==> lines[0] <= r
    decreases |lines|
  {
    if lines == [] then ""
    else if |lines| == 1 then lines[0]
    else lines[0] + sep + Join(lines[1..], sep)
  }

  /** Joining grows at the end: the last line follows one separator. */
  lemma {:induction false} JoinSnoc(lines: seq<string>, line: string, sep: string)
    requires lines != []
    ensures Join(lines + [line], sep) == Join(lines, sep) + sep + line
    decreases |lines|
  {
    if |lines| > 1 {
      assert (lines + [line])[1..] == lines[1..] + [line];
      JoinSnoc(lines[1..], line, sep);
    }
  }

  /** `formatacaoDadosMedCred`: one line per record in input order, joined
      with a newline; the empty list gives the empty string. The first
      record on which `.get` fails raises AttributeError. */
  method FormatMedCred(listadados: seq<Value>, str: Value -> string) returns (r: Result<string>)
    ensures r.Ok? <==> forall k :: 0 <= k < |listadados| ==> Line(listadados[k], str).Ok?
    ensures r.Err? ==> r.error == AttributeError
    ensures listadados == [] ==> r == Ok("")
    ensures r.Ok? ==> exists lines: seq<string> ::
      && |lines| == |listadados|
      && (forall k :: 0 <= k < |lines| ==> Line(listadados[k], str) == Ok(lines[k]))
      && r.value == Join(lines, "\n")
  {
    var frasefinal: seq<string> := [];
    for k := 0 to |listadados|
      invariant |frasefinal| == k
      invariant forall j :: 0 <= j < k ==> Line(listadados[j], str) == Ok(frasefinal[j])
    {
      var frase := Line(listadados[k], str);
      if frase.Err? {
        return Err(frase.error);
      }
      frasefinal := frasefinal + [frase.value];
    }
    return Ok(Join(frasefinal, "\n"));
  }

  /** Every line opens with the title label and the title (or its default)
      and closes with the relevance label, the relevance (or "Erro") and
      " \n". */
  lemma LineShape(m: Record, str: Value -> string)
    requires Line(Dict(m), str).Ok?
    ensures var line := Line(Dict(m), str).value;
      var title := TitlePrefix + Shown(m, "name", "Sem título", str);
      var tail := ", relevância em relação ao tema: " + Shown(m, "relevancia", "Erro", str) + LineEnd;
      |title| + |tail| <= |line| && line[..|title|] == title && line[|line| - |tail|..] == tail
  {
  }

  /** Field by field, a line shows the record's value where the key is
      present and the literal default where it is missing. The owner is
      `Desconhecido` both without `user` and with a `user` that has no
      `name`. */
  lemma LineFields(m: Record, str: Value -> string)
    requires Line(Dict(m), str).Ok?
    ensures "user" in m ==> m["user"].Dict?
    ensures
      var title := if "name" in m then Formatted(m["name"], str) else "Sem título";
      var views := if "views" in m then Formatted(m["views"], str) else "Não descrito";
      var likes := if "likes" in m then Formatted(m["likes"], str) else "Não descrito";
      var owner := if "user" in m && m["user"].Dict? && "name" in m["user"].fields
        then Formatted(m["user"].fields["name"], str) else "Desconhecido";
      var relevance := if Relevancia in m then Formatted(m[Relevancia], str) else "Erro";
      Line(Dict(m), str) == Ok(TitlePrefix + title + ", views do material: " + views
        + ", likes do material: " + likes + ", dono do material: " + owner
        + ", relevância em relação ao tema: " + relevance + LineEnd)
  {
  }

  /** A worked example of `LineFields`: a record with none of the fields
      shows every default literal. */
  lemma LineDefaults(str: Value -> string)
    ensures Line(Dict(map[]), str) ==
      Ok(TitlePrefix + "Sem título" + ", views do material: " + "Não descrito"
         + ", likes do material: " + "Não descrito" + ", dono do material: " + "Desconhecido"
         + ", relevância em relação ao tema: " + "Erro" + LineEnd)
  {
  }

  /** What `for dados in dadosMedcredDicionario` walks over (lines 34 and
      37): the elements of a list. An object yields its keys and a string
      its characters; both are strings, whose `.get` raises AttributeError
      at the first one, so only an empty one gets through. A number, a
      boolean or null is not iterable and raises TypeError. */
  function Records(results: Value): (r: Result<seq<Value>>)
    ensures results.List? ==> r == Ok(results.items)
    ensures results == Dict(map[]) || results == Str("") ==> r == Ok([])
    ensures (results.Dict? && results.fields != map[]) || (results.Str? && results.s != "") ==> r == Err(AttributeError)
    ensures r.Ok? ==> results.List? || results == Dict(map[]) || results == Str("")
    ensures r.Err? ==> (r.error == TypeError <==> results.Null? || results.Bool? || results.Int? || results.Float?)
  {
    match results
    case List(xs) => Ok(xs)
    case Dict(m) => if m == map[] then Ok([]) else Err(AttributeError)
    case Str(s) => if s == "" then Ok([]) else Err(AttributeError)
    case _ => Err(TypeError)
  }

  /** The dictionaries of records known to be objects. */
  function FieldsOf(records: seq<Value>): (r: seq<Record>)
    requires forall k :: 0 <= k < |records| ==> records[k].Dict?
    ensures |r| == |records|
    ensures forall k :: 0 <= k < |records| ==> records[k] == Dict(r[k])
  {
    seq(|records|, k requires 0 <= k < |records| => records[k].fields)
  }

  /** `retrieve` after the search request: unwrap the reply, render every
      record once for the diagnostic print of line 34, take the names as
      embedding texts, then keep the `top_k` best. The rendering comes
      first, so a record that is not an object, or whose `user` is present
      but not an object, raises AttributeError before any ranking. `scores`
      and `order` stand for the similarities of the names and their
      argsort. */
  method RetrieveReply(reply: Value, str: Value -> string, scores: seq<real>, order: seq<nat>, topK: int)
    returns (r: Result<seq<Record>>)
    requires Records(Unwrap(reply)).Ok? ==>
      |scores| == |Records(Unwrap(reply)).value| && IsPermutation(order, |scores|)
    ensures Records(Unwrap(reply)).Err? ==> r == Err(Records(Unwrap(reply)).error)
    ensures Records(Unwrap(reply)).Ok? ==>
      var records := Records(Unwrap(reply)).value;
      && (r.Ok? <==> forall k :: 0 <= k < |records| ==> Line(records[k], str).Ok?)
      && (r.Err? ==> r.error == AttributeError)
      && (r.Ok? ==> forall k :: 0 <= k < |records| ==> records[k].Dict?)
    ensures r.Ok? ==>
      var records := Records(Unwrap(reply)).value;
      && |r.value| == Min(|records|, Cap(topK))
      && r.value == TopK(FieldsOf(records), scores, order, topK)
  {
    var results := Records(Unwrap(reply));
    if results.Err? {
      return Err(results.error);
    }
    var records := results.value;
    var shown := FormatMedCred(records, str);
    if shown.Err? {
      return Err(shown.error);
    }
    forall k | 0 <= k < |records| ensures records[k].Dict? {
      assert Line(records[k], str).Ok?;
    }
    var names := ExtractNames(records);
    assert names.Ok?;
    var topKtotal := Retrieve(FieldsOf(records), scores, order, topK);
    return Ok(topKtotal);
  }
}
