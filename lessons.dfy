/** MinhaTentativa.py: a fixed catalogue of four lessons, the text each is
    embedded under (`titulo. descricao`), and `buscar_materia` over the
    catalogue. */
module Lessons {
  import opened Json
  import opened Ranking

  /** One entry of `aulasDisponiveis`. */
  datatype Lesson = Lesson(id: int, titulo: string, descricao: string)

  /** Defaults of `buscar_materia(consulta_usuario, topn=3, similaridade_minima=0.3)`. */
  const DefaultTopN: int := 3
  const DefaultMinSimilarity: real := 0.3

  /** `aulasDisponiveis`, with its spacing kept. */
  const Catalog: seq<Lesson> := [
    Lesson(1, "Introdução a Python", "Aprenda os fundamentos básicos  para programação em python "),
    Lesson(2, "Desenvolvimento  web", "Aula sobre desenvolvimento web com enfoque em HTML,CSS,JAVASCRIPT"),
    Lesson(3, " Minecraft  ensinando java", "Aprenda  java com minecraft"),
    Lesson(4, "Amoungus ", "SUS ")
  ]

  /** The dictionary a lesson is in the script. */
  function AsRecord(l: Lesson): (r: Record)
    ensures r.Keys == {"id", "titulo", "descricao"}
    ensures r["id"] == Int(l.id) && r["titulo"] == Str(l.titulo) && r["descricao"] == Str(l.descricao)
  {
    map["id" := Int(l.id), "titulo" := Str(l.titulo), "descricao" := Str(l.descricao)]
  }

  function CatalogRecords(): seq<Record>
  {
    seq(|Catalog|, k requires 0 <= k < |Catalog| => AsRecord(Catalog[k]))
  }

  /** Four lessons, numbered 1 to 4 in catalogue order, each a record with
      exactly `id`, `titulo` and `descricao`. */
  lemma CatalogShape()
    ensures |Catalog| == |CatalogRecords()| == 4
    ensures forall k :: 0 <= k < |Catalog| ==>
      Catalog[k].id == k + 1 && CatalogRecords()[k] == AsRecord(Catalog[k])
  {
  }

  /** The f-string `f"{aula['titulo']}. {aula['descricao']}"`. */
  function LessonText(l: Lesson): (r: string)
    ensures |r| == |l.titulo| + 2 + |l.descricao|
    ensures r[..|l.titulo|] == l.titulo && r[|l.titulo|..] == ". " + l.descricao
  {
    l.titulo + ". " + l.descricao
  }

  /** `dadosAulas`: one text per lesson, in catalogue order. */
  function LessonTexts(lessons: seq<Lesson>): (texts: seq<string>)
    ensures |texts| == |lessons|
  {
    seq(|lessons|, k requires 0 <= k < |lessons| => LessonText(lessons[k]))
  }

  /** Each text splits back into its lesson's title and description: the
      title, then ". ", then the description. */
  lemma LessonTextsSplit(lessons: seq<Lesson>, k: nat)
    requires k < |lessons|
    ensures var t := LessonTexts(lessons)[k];
      var n := |lessons[k].titulo|;
      && |t| == n + 2 + |lessons[k].descricao|
      && t[..n] == lessons[k].titulo
      && t[n..n + 2] == ". "
      && t[n + 2..] == lessons[k].descricao
  {
  }

  /** `buscar_materia` over the catalogue. Every lesson found reaches the
      similarity floor, keeps its `id`, `titulo` and `descricao`, and comes
      in non-increasing `relevancia`; at most `Cap(topn)` are found. */
  method SearchLessons(scores: seq<real>, order: seq<nat>, topn: int, minSimilarity: real)
    returns (resultados: seq<Record>)
    requires |scores| == |Catalog| && IsPermutation(order, |Catalog|)
    requires Descending(order, scores)
    ensures resultados == Selected(CatalogRecords(), scores, order, topn, minSimilarity)
    ensures |resultados| <= Cap(topn)
    ensures NonIncreasingRelevance(resultados)
    ensures forall k :: 0 <= k < |resultados| ==>
      exists p :: 0 <= p < |Catalog| && resultados[k] == AsRecord(Catalog[p])[Relevancia := Float(scores[p])]
    ensures forall k :: 0 <= k < |resultados| ==>
      Relevancia in resultados[k] && resultados[k][Relevancia].Float? &&
      resultados[k][Relevancia].f >= minSimilarity
  {
    var items := CatalogRecords();
    resultados := SelectAboveFloor(items, scores, order, topn, minSimilarity);
    SelectedProperties(items, scores, order, topn, minSimilarity);
    var t := Take(Qualifying(scores, order, minSimilarity), Cap(topn));
    forall k | 0 <= k < |resultados|
      ensures exists p :: 0 <= p < |Catalog| && resultados[k] == AsRecord(Catalog[p])[Relevancia := Float(scores[p])]
    {
      assert resultados[k] == WithRelevance(items[t[k]], scores[t[k]]);
    }
  }

  /** Called with its defaults, the search finds at most three lessons,
      each with a `relevancia` of at least 0.3. */
  lemma DefaultSearchBound(scores: seq<real>, order: seq<nat>)
    requires |scores| == |Catalog| && IsPermutation(order, |Catalog|)
    ensures var r := Selected(CatalogRecords(), scores, order, DefaultTopN, DefaultMinSimilarity);
      && |r| <= 3
      && forall k :: 0 <= k < |r| ==> Relevancia in r[k] && r[k][Relevancia].Float? && r[k][Relevancia].f >= 0.3
  {
  }
}
