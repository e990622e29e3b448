/** The servers' `preValidation` step: every string property reachable from the request
    body, through nested objects and arrays, is replaced by its trim. */
module RequestTrim {
  import opened Wrappers
  import opened Strings
  import opened JsonValues

  /** How one value relates to its trimmed counterpart: a string is trimmed, an array keeps
      its length, an object keeps its property names, anything else is unchanged. */
  predicate TrimmedNode(original: Json, trimmed: Json) {
    match original
    case JString(s) => trimmed == JString(Trim(s))
    case JArray(items) => trimmed.JArray? && |trimmed.items| == |items|
    case JObject(fields) => trimmed.JObject? && Keys(trimmed.fields) == Keys(fields)
    case _ => trimmed == original
  }

  /** The value the recursive trim leaves behind. */
  function Trimmed(v: Json): (r: Json)
    ensures TrimmedNode(v, r)
    decreases v
  {
    match v
    case JString(s) => JString(Trim(s))
    case JArray(items) =>
      JArray(seq(|items|, i requires 0 <= i < |items| => Trimmed(items[i])))
    case JObject(fields) =>
      JObject(seq(|fields|, i requires 0 <= i < |fields| => (fields[i].0, Trimmed(fields[i].1))))
    case _ => v
  }

  /** Trimming reaches everything: whatever a path reaches in the trimmed value is the
      trimmed counterpart of what it reaches in the original, and the same paths exist. */
  lemma {:induction false} TrimmedAt(v: Json, path: seq<nat>)
    ensures At(v, path).None? <==> At(Trimmed(v), path).None?
    ensures At(v, path).Some? ==> At(Trimmed(v), path) == Some(Trimmed(At(v, path).value))
    decreases |path|
  {
    if path != [] {
      match v
      case JArray(items) =>
        if path[0] < |items| {
          TrimmedAt(items[path[0]], path[1..]);
        }
      case JObject(fields) =>
        if path[0] < |fields| {
          TrimmedAt(fields[path[0]].1, path[1..]);
        }
      case _ =>
    }
  }

  /** Every reachable string is replaced by its trim; every other reachable value keeps its
      kind, its length or property names, or (a non-string primitive or null) its value. */
  lemma TrimmedEverywhere(v: Json, path: seq<nat>)
    requires At(v, path).Some?
    ensures At(Trimmed(v), path).Some? && TrimmedNode(At(v, path).value, At(Trimmed(v), path).value)
  {
    TrimmedAt(v, path);
  }

  /** Trimming twice is trimming once. */
  lemma {:induction false} TrimmedIdempotent(v: Json)
    ensures Trimmed(Trimmed(v)) == Trimmed(v)
    decreases v
  {
    match v
    case JString(s) => TrimIdempotent(s);
    case JArray(items) =>
      forall i | 0 <= i < |items| ensures Trimmed(Trimmed(items[i])) == Trimmed(items[i]) {
        assert items[i] in items;
        TrimmedIdempotent(items[i]);
      }
    case JObject(fields) =>
      forall i | 0 <= i < |fields| ensures Trimmed(Trimmed(fields[i].1)) == Trimmed(fields[i].1) {
        assert fields[i] in fields;
        TrimmedIdempotent(fields[i].1);
      }
    case _ =>
  }

  /** `trimStringProperties(obj)`: walks the properties of an object (or the indices of an
      array) in order, trimming strings and descending into nested objects and arrays. */
  method TrimStringProperties(obj: Json) returns (r: Json)
    requires IsContainer(obj)
    ensures r == Trimmed(obj)
    decreases obj, 2
  {
    if obj.JObject? {
      r := TrimObjectProperties(obj);
    } else {
      r := TrimArrayItems(obj);
    }
  }

  /** One property's new value, as the loop body computes it: a string is trimmed, a
      container is walked, anything else stays. */
  method TrimValue(value: Json, ghost parent: Json) returns (r: Json)
    requires value < parent
    ensures r == Trimmed(value)
    decreases parent, 0
  {
    if value.JString? {
      r := JString(Trim(value.s));
    } else if IsContainer(value) {
      r := TrimStringProperties(value);
    } else {
      r := value;
    }
  }

  /** The object case of `trimStringProperties`. */
  method TrimObjectProperties(obj: Json) returns (r: Json)
    requires obj.JObject?
    ensures r == Trimmed(obj)
    decreases obj, 1
  {
    var fields := obj.fields;
    for i := 0 to |fields|
      invariant |fields| == |obj.fields|
      invariant forall k :: 0 <= k < i ==> fields[k] == (obj.fields[k].0, Trimmed(obj.fields[k].1))
      invariant forall k :: i <= k < |fields| ==> fields[k] == obj.fields[k]
    {
      assert obj.fields[i] in obj.fields;
      var trimmed := TrimValue(obj.fields[i].1, obj);
      fields := fields[i := (obj.fields[i].0, trimmed)];
    }
    r := JObject(fields);
  }

  /** The array case of `trimStringProperties`. */
  method TrimArrayItems(obj: Json) returns (r: Json)
    requires obj.JArray?
    ensures r == Trimmed(obj)
    decreases obj, 1
  {
    var items := obj.items;
    for i := 0 to |items|
      invariant |items| == |obj.items|
      invariant forall k :: 0 <= k < i ==> items[k] == Trimmed(obj.items[k])
      invariant forall k :: i <= k < |items| ==> items[k] == obj.items[k]
    {
      assert obj.items[i] in obj.items;
      var trimmed := TrimValue(obj.items[i], obj);
      items := items[i := trimmed];
    }
    r := JArray(items);
  }
}
