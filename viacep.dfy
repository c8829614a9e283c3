/** `buscar_cep` of AprendendoIA/aprendendo_api.py: cleaning the CEP
    (Brazilian postal code), building the ViaCEP URL from it, and turning
    the reply into the address data or `None`. The HTTP request itself is a
    parameter `fetch` from URL to outcome. */
module ViaCep {
  import opened Json

  /** `s.replace(c, "")` */
  function RemoveAll(s: string, c: char): (r: string)
    ensures |r| <= |s|
  {
    if s == [] then []
    else (if s[0] == c then [] else [s[0]]) + RemoveAll(s[1..], c)
  }

  /** `cep.replace("-", "").replace(".", "")` */
  function CleanCep(cep: string): (r: string)
    ensures '-' !in r && '.' !in r
  {
    RemoveAllRemoves(cep, '-');
    RemoveAllRemoves(RemoveAll(cep, '-'), '.');
    RemoveAllKeepsAbsent(RemoveAll(cep, '-'), '.', '-');
    RemoveAll(RemoveAll(cep, '-'), '.')
  }

  /** After `replace(c, "")` no `c` is left. */
  lemma {:induction false} RemoveAllRemoves(s: string, c: char)
    ensures c !in RemoveAll(s, c)
    decreases |s|
  {
    if s != [] {
      RemoveAllRemoves(s[1..], c);
    }
  }

  /** Removing one character brings no other character in. */
  lemma {:induction false} RemoveAllKeepsAbsent(s: string, c: char, d: char)
    ensures d !in s ==> d !in RemoveAll(s, c)
    decreases |s|
  {
    if s != [] {
      assert d !in s ==> d !in s[1..];
      RemoveAllKeepsAbsent(s[1..], c, d);
    }
  }

  predicate IsSeparator(c: char)
  {
    c == '-' || c == '.'
  }

  /** The characters of `s` that are not separators, in their order:
      a single-pass reference for the two chained replaces. */
  function WithoutSeparators(s: string): string
  {
    if s == [] then []
    else WithoutSeparators(s[..|s| - 1]) + (if IsSeparator(s[|s| - 1]) then [] else [s[|s| - 1]])
  }

  /** `replace` works piece by piece. */
  lemma {:induction false} RemoveAllConcat(a: string, b: string, c: char)
    ensures RemoveAll(a + b, c) == RemoveAll(a, c) + RemoveAll(b, c)
    decreases |a|
  {
    if a != [] {
      assert (a + b)[1..] == a[1..] + b;
      RemoveAllConcat(a[1..], b, c);
    } else {
      assert a + b == b;
    }
  }

  /** Removing a character that does not occur changes nothing. */
  lemma {:induction false} RemoveAllAbsent(s: string, c: char)
    requires c !in s
    ensures RemoveAll(s, c) == s
    decreases |s|
  {
    if s != [] {
      assert s[0] in s;
      assert forall x :: x in s[1..] ==> x in s;
      RemoveAllAbsent(s[1..], c);
    }
  }

  /** The cleaned CEP is the input with its separators dropped and every
      other character kept, in order. */
  lemma {:induction false} CleanCepKeepsTheRest(s: string)
    ensures CleanCep(s) == WithoutSeparators(s)
    decreases |s|
  {
    if s != [] {
      var init, last := s[..|s| - 1], s[|s| - 1];
      assert s == init + [last];
      RemoveAllConcat(init, [last], '-');
      RemoveAllConcat(RemoveAll(init, '-'), RemoveAll([last], '-'), '.');
      CleanCepKeepsTheRest(init);
      assert RemoveAll([last], '-') == if last == '-' then [] else [last];
    }
  }

  /** Cleaning twice is cleaning once. */
  lemma CleanCepIdempotent(s: string)
    ensures CleanCep(CleanCep(s)) == CleanCep(s)
  {
    var r := CleanCep(s);
    RemoveAllAbsent(r, '-');
    RemoveAllAbsent(r, '.');
  }

  /** A CEP without separators is left as it is. */
  lemma CleanCepPlain(s: string)
    requires '-' !in s && '.' !in s
    ensures CleanCep(s) == s
  {
    RemoveAllAbsent(s, '-');
    RemoveAllAbsent(s, '.');
  }

  /** The dashed format "NNNNN-NNN" cleans to its two parts run together. */
  lemma {:induction false} CleanCepDashed(prefix: string, suffix: string)
    requires '-' !in prefix && '.' !in prefix && '-' !in suffix && '.' !in suffix
    ensures CleanCep(prefix + "-" + suffix) == prefix + suffix
  {
    var dash: string := ['-'];
    assert RemoveAll(dash, '-') == [] by {
      assert dash[1..] == [];
    }
    assert RemoveAll(prefix + dash + suffix, '-') == prefix + suffix by {
      RemoveAllConcat(prefix + dash, suffix, '-');
      RemoveAllConcat(prefix, dash, '-');
      RemoveAllAbsent(prefix, '-');
      RemoveAllAbsent(suffix, '-');
    }
    assert RemoveAll(prefix + suffix, '.') == prefix + suffix by {
      RemoveAllConcat(prefix, suffix, '.');
      RemoveAllAbsent(prefix, '.');
      RemoveAllAbsent(suffix, '.');
    }
  }

  /** Both documented input formats give the same digits. */
  lemma CleanCepFormats()
    ensures CleanCep("01310-100") == "01310100"
    ensures CleanCep("01310100") == "01310100"
  {
    var prefix, suffix := "01310", "100";
    assert prefix + "-" + suffix == "01310-100";
    assert prefix + suffix == "01310100";
    CleanCepDashed(prefix, suffix);
    CleanCepPlain(prefix + suffix);
  }

  const UrlPrefix: string := "https://viacep.com.br/ws/"
  const UrlSuffix: string := "/json/"

  /** `f"https://viacep.com.br/ws/{cep_limpo}/json/"`: the path segment is
      the CEP with its separators dropped and nothing else changed. */
  function CepUrl(cep: string): (r: string)
    ensures r == UrlPrefix + WithoutSeparators(cep) + UrlSuffix
  {
    CleanCepKeepsTheRest(cep);
    UrlPrefix + CleanCep(cep) + UrlSuffix
  }

  /** How `requests.get(url, timeout=5)` ended. `body` is `None` when the
      reply is not JSON, where `resposta.json()` raises a decoding error
      that the handler for request exceptions catches. */
  datatype Outcome =
    | Response(status: int, body: Option<Value>)
    | Timeout
    | RequestFailed

  /** Whether `needle` occurs as a contiguous piece of `s`. */
  predicate Contains(s: string, needle: string)
    decreases |s|
  {
    needle <= s || (s != [] && Contains(s[1..], needle))
  }

  /** `"erro" in dados`: a key of an object, an element of a list, a
      substring of a string; TypeError for numbers, booleans and null. */
  function HasErro(dados: Value): (r: Result<bool>)
    ensures r.Err? <==> dados.Null? || dados.Bool? || dados.Int? || dados.Float?
    ensures r.Err? ==> r.error == TypeError
    ensures dados.Dict? ==> r == Ok("erro" in dados.fields)
    ensures dados.List? ==> r == Ok(exists k :: 0 <= k < |dados.items| && dados.items[k] == Str("erro"))
    ensures dados.Str? ==> r == Ok(Contains(dados.s, "erro"))
  {
    match dados
    case Dict(m) => Ok("erro" in m)
    case List(xs) => Ok(Str("erro") in xs)
    case Str(s) => Ok(Contains(s, "erro"))
    case _ => Err(TypeError)
  }

  /** The branches of `buscar_cep` after the request: status 200 with no
      `erro` gives the data; `erro`, another status, a timeout or any other
      request failure give `None`. */
  function Classify(outcome: Outcome): (r: Result<Option<Value>>)
    ensures (r.Ok? && r.value.Some?) <==>
      outcome.Response? && outcome.status == 200 && outcome.body.Some? && HasErro(outcome.body.value) == Ok(false)
    ensures r.Ok? && r.value.Some? ==> r.value.value == outcome.body.value
    ensures r.Err? ==>
      && r.error == TypeError && outcome.Response? && outcome.status == 200 && outcome.body.Some?
      && !(outcome.body.value.Dict? || outcome.body.value.List? || outcome.body.value.Str?)
    ensures outcome.Response? && outcome.status != 200 ==> r == Ok(None)
    ensures outcome.Response? && outcome.status == 200 && outcome.body.Some? && HasErro(outcome.body.value).Err? ==>
      r == Err(TypeError)
  {
    match outcome
    case Response(status, body) =>
      if status != 200 then Ok(None)
      else if body.None? then Ok(None)
      else
        (match HasErro(body.value)
         case Err(e) => Err(e)
         case Ok(erro) => if !erro then Ok(Some(body.value)) else Ok(None))
    case Timeout => Ok(None)
    case RequestFailed => Ok(None)
  }

  /** For the object replies ViaCEP sends, a 200 reply is the address
      exactly when it has no `erro` key, and nothing raises. */
  lemma ClassifyObject(status: int, m: map<string, Value>)
    ensures Classify(Response(status, Some(Dict(m)))) ==
      if status == 200 && "erro" !in m then Ok(Some(Dict(m))) else Ok(None)
  {
  }

  /** `buscar_cep(cep)`, with the request made by `fetch`. */
  function BuscarCep(cep: string, fetch: string -> Outcome): (r: Result<Option<Value>>)
    ensures var o := fetch(UrlPrefix + WithoutSeparators(cep) + UrlSuffix);
      && ((r.Ok? && r.value.Some?) <==>
           o.Response? && o.status == 200 && o.body.Some? && HasErro(o.body.value) == Ok(false))
      && (r.Ok? && r.value.Some? ==> r.value.value == o.body.value)
      && (o.Timeout? || o.RequestFailed? ==> r == Ok(None))
      && (o.Response? && o.status != 200 ==> r == Ok(None))
      && (o.Response? && o.status == 200 && o.body.None? ==> r == Ok(None))
      && (o.Response? && o.status == 200 && o.body.Some? && HasErro(o.body.value) == Ok(true) ==> r == Ok(None))
      && (o.Response? && o.status == 200 && o.body.Some? && HasErro(o.body.value).Err? ==> r == Err(TypeError))
  {
    Classify(fetch(CepUrl(cep)))
  }

  /** A CEP written with or without its separators asks for the same URL,
      and so gets the same answer. */
  lemma BuscarCepIgnoresFormatting(cep: string, fetch: string -> Outcome)
    ensures CepUrl(cep) == CepUrl(CleanCep(cep))
    ensures BuscarCep(cep, fetch) == BuscarCep(CleanCep(cep), fetch)
  {
    CleanCepIdempotent(cep);
  }
}

