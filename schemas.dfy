/**
  The extraction record of app/schemas.py and what validating a decoded JSON value
  against it accepts. A JSON value is what json.loads returns; validation follows the
  declared field types and constraints of Metric and PaperJSON (no lax-mode coercion).
*/
module Schemas {
  import opened Wrappers

  /** A decoded JSON value; objects are dicts from keys to values. */
  datatype Json =
    | JNull
    | JBool(b: bool)
    | JInt(i: int)
    | JFloat(f: real)
    | JString(s: string)
    | JArray(items: seq<Json>)
    | JObject(fields: map<string, Json>)

  /** One reported result: all four fields are required and page is at least 1. */
  datatype Metric = Metric(dataset: string, metric: string, value: real, page: int)

  /** The validated record; methods, datasets and ablations entries are free-form dicts. */
  datatype PaperJson = PaperJson(
    title: string,
    tasks: seq<string>,
    methods: seq<map<string, Json>>,
    datasets: seq<map<string, Json>>,
    metrics: seq<Metric>,
    ablations: seq<map<string, Json>>)

  /** The field whose value was missing or did not fit its declared type. */
  datatype ValidationError = Missing(field: string) | Invalid(field: string)

  function AsString(j: Json): Option<string> {
    if j.JString? then Some(j.s) else None
  }

  /** A float field takes a JSON integer or a JSON float. */
  function AsNumber(j: Json): Option<real> {
    match j
    case JInt(i) => Some(i as real)
    case JFloat(f) => Some(f)
    case _ => None
  }

  /** A dict field takes any JSON object. */
  function AsObject(j: Json): Option<map<string, Json>> {
    if j.JObject? then Some(j.fields) else None
  }

  /** Validates one entry of "metrics" against Metric. */
  function ValidateMetric(j: Json): (r: Option<Metric>)
    ensures r.Some? ==> r.value.page >= 1
    ensures r.Some? <==>
      && j.JObject?
      && "dataset" in j.fields && j.fields["dataset"].JString?
      && "metric" in j.fields && j.fields["metric"].JString?
      && "value" in j.fields && (j.fields["value"].JInt? || j.fields["value"].JFloat?)
      && "page" in j.fields && j.fields["page"].JInt? && j.fields["page"].i >= 1
  {
    if !j.JObject? then None
    else
      var f := j.fields;
      if "dataset" !in f || "metric" !in f || "value" !in f || "page" !in f then None
      else if !f["dataset"].JString? || !f["metric"].JString? then None
      else
        match AsNumber(f["value"])
        case None => None
        case Some(v) =>
          if f["page"].JInt? && f["page"].i >= 1 then
            Some(Metric(f["dataset"].s, f["metric"].s, v, f["page"].i))
          else None
  }

  /** Validates every element of a list with f; the list is accepted only if every element is. */
  function AllOf<T>(items: seq<Json>, f: Json -> Option<T>): (r: Option<seq<T>>)
    ensures r.Some? <==> forall k :: 0 <= k < |items| ==> f(items[k]).Some?
    ensures r.Some? ==> |r.value| == |items| && forall k :: 0 <= k < |items| ==> f(items[k]) == Some(r.value[k])
    decreases |items|
  {
    if |items| == 0 then Some([])
    else
      match AllOf(items[..|items| - 1], f)
      case None => None
      case Some(prefix) =>
        match f(items[|items| - 1])
        case None => None
        case Some(x) => Some(prefix + [x])
  }

  /** A list field passes when it is absent or is a list every item of which f accepts. */
  predicate ListAccepted<T>(fields: map<string, Json>, key: string, f: Json -> Option<T>) {
    key !in fields || (fields[key].JArray? && forall k :: 0 <= k < |fields[key].items| ==> f(fields[key].items[k]).Some?)
  }

  /** The value a passing list field gets: [] when absent, else its items validated one for one. */
  ghost predicate ListOf<T>(fields: map<string, Json>, key: string, f: Json -> Option<T>, v: seq<T>) {
    if key !in fields then v == []
    else
      && fields[key].JArray? && |v| == |fields[key].items|
      && forall k :: 0 <= k < |v| ==> f(fields[key].items[k]) == Some(v[k])
  }

  /** A list field with default []: absent gives [], present must be a list of valid items. */
  function ListField<T>(fields: map<string, Json>, key: string, f: Json -> Option<T>): (r: Result<seq<T>, ValidationError>)
    ensures r.Ok? <==> ListAccepted(fields, key, f)
    ensures r.Ok? ==> ListOf(fields, key, f, r.value)
    ensures r.Err? ==> r.error == Invalid(key)
  {
    if key !in fields then Ok([])
    else
      match fields[key]
      case JArray(items) =>
        (match AllOf(items, f)
         case Some(v) => Ok(v)
         case None => Err(Invalid(key)))
      case _ => Err(Invalid(key))
  }

  /** PaperJSON.model_validate: a JSON object with a string title and well-typed optional lists. */
  function Validate(j: Json): (r: Result<PaperJson, ValidationError>)
    ensures r.Ok? <==>
      && j.JObject? && "title" in j.fields && j.fields["title"].JString?
      && ListAccepted(j.fields, "tasks", AsString)
      && ListAccepted(j.fields, "methods", AsObject)
      && ListAccepted(j.fields, "datasets", AsObject)
      && ListAccepted(j.fields, "metrics", ValidateMetric)
      && ListAccepted(j.fields, "ablations", AsObject)
    ensures r.Ok? ==>
      && j.fields["title"] == JString(r.value.title)
      && ListOf(j.fields, "tasks", AsString, r.value.tasks)
      && ListOf(j.fields, "methods", AsObject, r.value.methods)
      && ListOf(j.fields, "datasets", AsObject, r.value.datasets)
      && ListOf(j.fields, "metrics", ValidateMetric, r.value.metrics)
      && ListOf(j.fields, "ablations", AsObject, r.value.ablations)
    ensures r.Ok? ==> forall m :: m in r.value.metrics ==> m.page >= 1
  {
    if !j.JObject? then Err(Invalid("__root__"))
    else
      var f := j.fields;
      if "title" !in f then Err(Missing("title"))
      else if !f["title"].JString? then Err(Invalid("title"))
      else
        match ListField(f, "tasks", AsString)
        case Err(e) => Err(e)
        case Ok(tasks) =>
          match ListField(f, "methods", AsObject)
          case Err(e) => Err(e)
          case Ok(methods) =>
            match ListField(f, "datasets", AsObject)
            case Err(e) => Err(e)
            case Ok(datasets) =>
              match ListField(f, "metrics", ValidateMetric)
              case Err(e) => Err(e)
              case Ok(metrics) =>
                match ListField(f, "ablations", AsObject)
                case Err(e) => Err(e)
                case Ok(ablations) =>
                  Ok(PaperJson(f["title"].s, tasks, methods, datasets, metrics, ablations))
  }

  /** Only the title is required: every list field absent gives its empty default. */
  lemma TitleOnlyGetsDefaults(title: string)
    ensures Validate(JObject(map["title" := JString(title)])) == Ok(PaperJson(title, [], [], [], [], []))
  {
  }

  /** Without a string title the record is refused. */
  lemma TitleRequired(j: Json)
    requires j.JObject? && ("title" !in j.fields || !j.fields["title"].JString?)
    ensures Validate(j).Err?
  {
  }

  /** The whole record is validated at once: one bad metric entry fails the extraction. */
  lemma OneBadMetricFailsAll(j: Json, k: nat)
    requires j.JObject? && "metrics" in j.fields && j.fields["metrics"].JArray?
    requires k < |j.fields["metrics"].items| && ValidateMetric(j.fields["metrics"].items[k]).None?
    ensures Validate(j).Err?
  {
  }

  /** Entries of methods, datasets and ablations are unconstrained: any list of objects is kept as is. */
  lemma {:induction false} AnyObjectsAccepted(objs: seq<map<string, Json>>)
    ensures AllOf(seq(|objs|, k requires 0 <= k < |objs| => JObject(objs[k])), AsObject) == Some(objs)
  {
    var js := seq(|objs|, k requires 0 <= k < |objs| => JObject(objs[k]));
    var r := AllOf(js, AsObject);
    assert forall k :: 0 <= k < |js| ==> AsObject(js[k]).Some?;
    assert |r.value| == |objs|;
    forall k | 0 <= k < |objs| ensures r.value[k] == objs[k] {
      assert AsObject(js[k]) == Some(r.value[k]);
    }
    assert r.value == objs;
  }

  /** A metric whose page is below 1 is invalid, whatever its other fields. */
  lemma PageBelowOneInvalid(j: Json)
    requires j.JObject? && "page" in j.fields && j.fields["page"].JInt? && j.fields["page"].i < 1
    ensures ValidateMetric(j).None?
  {
  }
}
