/** The shapes of the Gmail API responses the modelled code reads. The API
    calls themselves are not modelled: their outcomes are inputs. */
module Gmail {
  import opened Host

  /** A JSON object, as far as its string-valued fields are read. */
  type Json = map<string, string>

  /** `results.get("labels", [])`: the list of labels, or none if the field
      is absent. */
  function LabelsOrEmpty(labels: Option<seq<Json>>): seq<Json> {
    OrElse(labels, [])
  }

  /** `[label["name"] for label in labels]`: the name of every label, in the
      order the API listed them, or `None` when one of them has no name (the
      comprehension raises KeyError('name')). */
  function LabelNames(labels: seq<Json>): (r: Option<seq<string>>)
    ensures r.Some? <==> forall i :: 0 <= i < |labels| ==> "name" in labels[i]
    ensures r.Some? ==> |r.value| == |labels|
    ensures r.Some? ==> forall i :: 0 <= i < |labels| ==> r.value[i] == labels[i]["name"]
  {
    if labels == [] then Some([])
    else if "name" !in labels[0] then None
    else
      match LabelNames(labels[1..])
      case None => None
      case Some(rest) => Some([labels[0]["name"]] + rest)
  }

  /** `labels[:n]`. */
  function Take(labels: seq<Json>, n: nat): seq<Json> {
    if |labels| <= n then labels else labels[..n]
  }
}
