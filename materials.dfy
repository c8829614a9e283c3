/** corrigido.py: the embedding texts built from the MeCred `items`
    (`name`, then a space and the `description` when it is truthy) and
    `buscar_materia`, the thresholded top-n search over them. */
module Materials {
  import opened Json
  import opened Ranking

  /** Defaults of `buscar_materia(consulta_usuario, topn=5, similaridade_minima=0.3)`. */
  const DefaultTopN: int := 5
  const DefaultMinSimilarity: real := 0.3

  /** `texto += suffix` where `texto` came from `aula.get('name', '')`: a
      string is extended, a list grows by the suffix's characters, anything
      else raises TypeError. */
  function AppendText(texto: Value, suffix: string): (r: Result<Value>)
    ensures r.Ok? <==> texto.Str? || texto.List?
    ensures r.Err? ==> r.error == TypeError
    ensures texto.Str? ==> r == Ok(Str(texto.s + suffix))
    ensures texto.List? ==>
      && r.value.List? && |r.value.items| == |texto.items| + |suffix|
      && r.value.items[..|texto.items|] == texto.items
      && forall k :: 0 <= k < |suffix| ==> r.value.items[|texto.items| + k] == Str([suffix[k]])
  {
    match texto
    case Str(t) => Ok(Str(t + suffix))
    case List(xs) => Ok(List(xs + seq(|suffix|, k requires 0 <= k < |suffix| => Str([suffix[k]]))))
    case _ => Err(TypeError)
  }

  /** The embedding text of one item, as the loop body computes it. */
  function TextFor(aula: Value): (r: Result<Value>)
    ensures !aula.Dict? ==> r == Err(AttributeError)
    ensures aula.Dict? ==>
      var name := Get(aula.fields, "name", Str(""));
      var description := Get(aula.fields, "description", Null);
      && (r.Ok? <==> !Truthy(description) || (description.Str? && (name.Str? || name.List?)))
      && (r.Err? ==> r.error == TypeError)
      && (!Truthy(description) ==> r == Ok(name))
  {
    match aula
    case Dict(m) =>
      var texto := Get(m, "name", Str(""));
      var description := Get(m, "description", Null);
      if !Truthy(description) then Ok(texto)
      else if description.Str? then AppendText(texto, " " + description.s)
      else Err(TypeError)
    case _ => Err(AttributeError)
  }

  /** For the usual shape, string `name` and `description` that may be
      missing, the text is the name (or "") followed by a space and the
      description exactly when the description is non-empty. */
  lemma TextForStrings(m: Record)
    requires "name" in m ==> m["name"].Str?
    requires "description" in m ==> m["description"].Str?
    ensures var name := if "name" in m then m["name"].s else "";
      var description := if "description" in m then m["description"].s else "";
      TextFor(Dict(m)) == Ok(Str(if description == "" then name else name + " " + description))
  {
    var name := if "name" in m then m["name"].s else "";
    assert Get(m, "name", Str("")) == Str(name);
    if "description" in m && m["description"].s != "" {
      var d := m["description"].s;
      assert Truthy(m["description"]);
      assert name + (" " + d) == name + " " + d;
    }
  }

  /** For a list `name` and a non-empty string description, the text is
      that list with one one-character string per character of
      `' ' + description` added at its end: what the in-place `+=` leaves
      in the item's own list. */
  lemma TextForListName(m: Record)
    requires "name" in m && m["name"].List?
    requires "description" in m && m["description"].Str? && m["description"].s != ""
    ensures var suffix := " " + m["description"].s;
      TextFor(Dict(m)) == Ok(List(m["name"].items + seq(|suffix|, k requires 0 <= k < |suffix| => Str([suffix[k]]))))
  {
  }

  /** A description that is present and truthy but not a string cannot be
      appended: the item fails with TypeError whatever its name. */
  lemma TextForBadDescription(m: Record)
    requires "description" in m && Truthy(m["description"]) && !m["description"].Str?
    ensures TextFor(Dict(m)) == Err(TypeError)
  {
  }

  /** An item once its text is built. When `name` is a list, `texto` is
      that very list and `+=` extends it in place, so the item's `name` is
      the text afterwards; a string `name` cannot change. */
  function AfterText(m: Record, texto: Value): (r: Record)
    ensures r.Keys == m.Keys
    ensures forall key :: key in m && !(key == "name" && m[key].List?) ==> r[key] == m[key]
    ensures "name" in m && m["name"].List? ==> r["name"] == texto
  {
    if "name" in m && m["name"].List? then m["name" := texto] else m
  }

  /** `items` after the loop that builds the texts. */
  function ItemsAfterTexts(items: seq<Value>): (r: seq<Record>)
    requires forall k :: 0 <= k < |items| ==> TextFor(items[k]).Ok?
    ensures |r| == |items|
    ensures forall k :: 0 <= k < |items| ==> items[k].Dict? && r[k] == AfterText(items[k].fields, TextFor(items[k]).value)
  {
    seq(|items|, k requires 0 <= k < |items| && TextFor(items[k]).Ok? => AfterText(items[k].fields, TextFor(items[k]).value))
  }

  /** Only list-valued names change: an item whose `name` is a string, or
      missing, comes out of the loop as it went in, and a list `name` ends
      up as the item's embedding text. */
  lemma ItemsAfterTextsChange(items: seq<Value>, k: nat)
    requires forall j :: 0 <= j < |items| ==> TextFor(items[j]).Ok?
    requires k < |items|
    ensures items[k].Dict?
    ensures var m := items[k].fields;
      var after := ItemsAfterTexts(items)[k];
      && after.Keys == m.Keys
      && (!("name" in m && m["name"].List?) ==> after == m)
      && ("name" in m && m["name"].List? ==> after["name"] == TextFor(items[k]).value && after["name"].List?)
  {
  }

  /** The loop that fills `textos_para_embedding`: one text per item, in
      item order; the first item whose text cannot be built raises. `after`
      is `items` as the loop leaves them. */
  method BuildTexts(items: seq<Value>) returns (r: Result<seq<Value>>, after: seq<Record>)
    ensures r.Ok? <==> forall k :: 0 <= k < |items| ==> TextFor(items[k]).Ok?
    ensures r.Ok? ==> |r.value| == |items|
    ensures r.Ok? ==> forall k :: 0 <= k < |items| ==> r.value[k] == TextFor(items[k]).value
    ensures r.Err? ==>
      exists k :: 0 <= k < |items| && TextFor(items[k]) == Err(r.error) && forall j :: 0 <= j < k ==> TextFor(items[j]).Ok?
    ensures r.Ok? ==> after == ItemsAfterTexts(items)
  {
    var textos: seq<Value> := [];
    after := [];
    for k := 0 to |items|
      invariant |textos| == k && |after| == k
      invariant forall j :: 0 <= j < k ==> TextFor(items[j]) == Ok(textos[j])
      invariant forall j :: 0 <= j < k ==> items[j].Dict? && after[j] == AfterText(items[j].fields, textos[j])
    {
      var aula := items[k];
      if !aula.Dict? {
        return Err(AttributeError), after;
      }
      var texto := Get(aula.fields, "name", Str(""));
      var description := Get(aula.fields, "description", Null);
      if Truthy(description) {
        if !description.Str? {
          return Err(TypeError), after;
        }
        var appended := AppendText(texto, " " + description.s);
        if appended.Err? {
          return Err(appended.error), after;
        }
        texto := appended.value;
      }
      textos := textos + [texto];
      after := after + [AfterText(aula.fields, texto)];
    }
    return Ok(textos), after;
  }

  /** `buscar_materia`: the items whose score reaches
      `similaridade_minima`, best first, at most `Cap(topn)` of them, each
      extended with its `relevancia`. An empty result is the
      "Nenhuma aula encontrada" branch of the caller. */
  method SearchMaterials(items: seq<Record>, scores: seq<real>, order: seq<nat>, topn: int, minSimilarity: real)
    returns (resultados: seq<Record>)
    requires |scores| == |items| && IsPermutation(order, |items|)
    requires Descending(order, scores)
    ensures resultados == Selected(items, scores, order, topn, minSimilarity)
    ensures |resultados| <= Cap(topn)
    ensures NonIncreasingRelevance(resultados)
    ensures forall k :: 0 <= k < |resultados| ==>
      Relevancia in resultados[k] && resultados[k][Relevancia].Float? &&
      resultados[k][Relevancia].f >= minSimilarity
    ensures resultados == [] <==> forall p :: 0 <= p < |items| ==> scores[p] < minSimilarity
  {
    resultados := SelectAboveFloor(items, scores, order, topn, minSimilarity);
    SelectedProperties(items, scores, order, topn, minSimilarity);
    SelectedEmpty(items, scores, order, topn, minSimilarity);
  }

  /** The script around `buscar_materia`: build the texts, which may
      extend list-valued names in place, then search the items as the loop
      left them. */
  method BuildAndSearch(items: seq<Value>, scores: seq<real>, order: seq<nat>, topn: int, minSimilarity: real)
    returns (r: Result<seq<Record>>)
    requires |scores| == |items| && IsPermutation(order, |items|)
    requires Descending(order, scores)
    ensures r.Ok? <==> forall k :: 0 <= k < |items| ==> TextFor(items[k]).Ok?
    ensures r.Err? ==>
      exists k :: 0 <= k < |items| && TextFor(items[k]) == Err(r.error) && forall j :: 0 <= j < k ==> TextFor(items[j]).Ok?
    ensures r.Ok? ==> r.value == Selected(ItemsAfterTexts(items), scores, order, topn, minSimilarity)
    ensures r.Ok? ==> |r.value| <= Cap(topn) && NonIncreasingRelevance(r.value)
  {
    var textos, after := BuildTexts(items);
    if textos.Err? {
      return Err(textos.error);
    }
    var resultados := SearchMaterials(after, scores, order, topn, minSimilarity);
    return Ok(resultados);
  }

  /** Called with its defaults, the search finds at most five materials,
      each with a `relevancia` of at least 0.3. */
  lemma DefaultSearchBound(items: seq<Record>, scores: seq<real>, order: seq<nat>)
    requires |scores| == |items| && IsPermutation(order, |items|)
    ensures var r := Selected(items, scores, order, DefaultTopN, DefaultMinSimilarity);
      && |r| <= 5
      && forall k :: 0 <= k < |r| ==> Relevancia in r[k] && r[k][Relevancia].Float? && r[k][Relevancia].f >= 0.3
  {
  }
}
