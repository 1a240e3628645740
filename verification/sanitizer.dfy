/** The post-processing of the upstream reply: the reply must decode to a JSON array,
    and every element is normalised into a job-posting object. One failure anywhere
    rejects the whole reply. */
module Sanitizer {
  import opened Results
  import opened Json
  import opened Text

  /** Descriptions are hard-cut to this many characters. */
  const MaxDescription: nat := 300

  /** Prefix of the identifier synthesised for a posting that arrived without one. */
  const IdPrefix: string := "web_"

  /** The only country a posting's location may carry. */
  const ForcedCountry: string := "CH"

  /** Why a reply was rejected. The endpoint reports all of them alike. */
  datatype FormatError =
    | NotJson                           // `json.loads` failed
    | NotAnArray                        // decoded, but not a list
    | NotAMapping(position: nat)        // `dict(job)` failed for the element at this 1-based position
    | DescriptionNotText(position: nat) // a truthy description without `.strip()`

  /** A description the element can carry: falsy (treated as `""`) or a string. */
  predicate DescriptionAccepted(d: Value) {
    !Truthy(d) || d.Str?
  }

  /** `(job.get("description") or "").strip()`, cut to `MaxDescription` characters. */
  function CleanDescription(d: Value, position: nat): (r: Result<string, FormatError>)
    ensures r.Success? <==> DescriptionAccepted(d)
    ensures r.Failure? ==> r.error == DescriptionNotText(position)
    ensures r.Success? && !Truthy(d) ==> r.value == ""
    ensures r.Success? ==> |r.value| <= MaxDescription
    ensures r.Success? && d.Str? ==> r.value <= Strip(d.s)
    ensures r.Success? && d.Str? && |Strip(d.s)| <= MaxDescription ==> r.value == Strip(d.s)
    ensures r.Success? && d.Str? && |Strip(d.s)| > MaxDescription ==> |r.value| == MaxDescription
  {
    if !Truthy(d) then
      assert d.Str? ==> |Strip(d.s)| <= |d.s| == 0;
      Success("")
    else if d.Str? then Success(Cut(Strip(d.s), MaxDescription))
    else Failure(DescriptionNotText(position))
  }

  /** The identifier `f"web_{idx}"` given to the element at 1-based `position`. */
  function FallbackId(position: nat): (id: string)
    ensures |id| > |IdPrefix| && id[..|IdPrefix|] == IdPrefix
    ensures forall i :: |IdPrefix| <= i < |id| ==> IsDigit(id[i])
    ensures DecimalValue(id[|IdPrefix|..]) == position
    ensures id[|IdPrefix|] == '0' ==> position == 0
  {
    var id := IdPrefix + NatToDecimal(position);
    assert id[|IdPrefix|..] == NatToDecimal(position);
    DecimalRoundTrip(position);
    id
  }

  /** Elements at different positions never receive the same fallback identifier. */
  lemma FallbackIdInjective(p: nat, q: nat)
    requires p != q
    ensures FallbackId(p) != FallbackId(q)
  {
    assert FallbackId(p)[|IdPrefix|..] == NatToDecimal(p);
    assert FallbackId(q)[|IdPrefix|..] == NatToDecimal(q);
    DecimalInjective(p, q);
  }

  /** Keys no step of the normalisation touches. */
  predicate Untouched(k: string) {
    k != "description" && k != "id" && k != "location"
  }

  /** `j["id"] = f"web_{idx}"` unless the mapping already has an `"id"` key. */
  function WithFallbackId(j: Fields, position: nat): (r: Fields)
    ensures r.Keys == j.Keys + {"id"}
    ensures "id" in j ==> r["id"] == j["id"]
    ensures "id" !in j ==> r["id"] == Str(FallbackId(position))
    ensures forall k :: k in j && k != "id" ==> r[k] == j[k]
  {
    if "id" in j then j else j["id" := Str(FallbackId(position))]
  }

  /** `j["location"]["country"] = "CH"` when `j["location"]` is a mapping. */
  function WithForcedCountry(j: Fields): (r: Fields)
    ensures r.Keys == j.Keys
    ensures forall k :: k in j && k != "location" ==> r[k] == j[k]
    ensures "location" in j && !j["location"].Obj? ==> r["location"] == j["location"]
    ensures "location" in j && j["location"].Obj? ==>
      && r["location"].Obj?
      && r["location"].fields.Keys == j["location"].fields.Keys + {"country"}
      && r["location"].fields["country"] == Str(ForcedCountry)
      && forall k :: k in j["location"].fields && k != "country" ==> r["location"].fields[k] == j["location"].fields[k]
  {
    if "location" in j && j["location"].Obj? then
      j["location" := Obj(j["location"].fields["country" := Str(ForcedCountry)])]
    else j
  }

  /** The body of the loop for one element at 1-based `position`: copy the mapping,
      replace its description by the cleaned one, add a fallback id when there is
      none, and force a nested location's country to `ForcedCountry`. It fails
      exactly when the element is not a mapping or its description is truthy but
      not a string. */
  function CleanJob(job: Value, position: nat): (r: Result<Fields, FormatError>)
    ensures r.Success? <==> job.Obj? && DescriptionAccepted(GetOr(job.fields, "description", Null))
    ensures !job.Obj? ==> r == Failure(NotAMapping(position))
    ensures job.Obj? && r.Failure? ==> r.error == DescriptionNotText(position)
    ensures r.Success? ==> r.value.Keys == job.fields.Keys + {"description", "id"}
    ensures r.Success? ==> r.value["description"].Str? && |r.value["description"].s| <= MaxDescription
  {
    if !job.Obj? then Failure(NotAMapping(position))
    else
      match CleanDescription(GetOr(job.fields, "description", Null), position)
      case Failure(e) => Failure(e)
      case Success(desc) =>
        Success(WithForcedCountry(WithFallbackId(job.fields["description" := Str(desc)], position)))
  }

  /** The cleaned description is always present: the stripped input description cut
      to `MaxDescription` characters, or `""` when the input had a falsy one. */
  lemma CleanJobDescription(job: Value, position: nat)
    requires CleanJob(job, position).Success?
    ensures var r := CleanJob(job, position).value;
      && r["description"].Str?
      && |r["description"].s| <= MaxDescription
      && (var d := GetOr(job.fields, "description", Null);
          if Truthy(d) then r["description"].s == Cut(Strip(d.s), MaxDescription)
          else r["description"].s == "")
  {
  }

  /** An existing id is kept whatever its value, even `null`; a missing one is the
      fallback for the element's position. */
  lemma CleanJobId(job: Value, position: nat)
    requires CleanJob(job, position).Success?
    ensures var r := CleanJob(job, position).value;
      && ("id" in job.fields ==> r["id"] == job.fields["id"])
      && ("id" !in job.fields ==> r["id"] == Str(FallbackId(position)))
  {
  }

  /** A nested location mapping says country CH afterwards and keeps its other keys;
      a location that is not a mapping is left as it was. */
  lemma CleanJobLocation(job: Value, position: nat)
    requires CleanJob(job, position).Success?
    requires "location" in job.fields
    ensures var r := CleanJob(job, position).value;
      var loc := job.fields["location"];
      if loc.Obj? then
        && r["location"].Obj?
        && r["location"].fields.Keys == loc.fields.Keys + {"country"}
        && r["location"].fields["country"] == Str(ForcedCountry)
        && forall k :: k in loc.fields && k != "country" ==> r["location"].fields[k] == loc.fields[k]
      else r["location"] == loc
  {
  }

  /** Every field other than `"description"`, `"id"` and `"location"` is copied unchanged. */
  lemma CleanJobOtherFields(job: Value, position: nat)
    requires CleanJob(job, position).Success?
    ensures forall k :: k in job.fields && Untouched(k) ==> CleanJob(job, position).value[k] == job.fields[k]
  {
  }

  /** The loop over `enumerate(items, start)` for a per-element step `clean`, as a
      recursion: either every element is cleaned, in order, each from its own input
      element and position alone, or the first element that fails decides the error. */
  function CleanItems(items: seq<Value>, start: nat, clean: (Value, nat) -> Result<Fields, FormatError>)
    : (r: Result<seq<Fields>, FormatError>)
    ensures r.Success? <==> forall i :: 0 <= i < |items| ==> clean(items[i], start + i).Success?
    ensures r.Success? ==> |r.value| == |items|
    ensures r.Success? ==> forall i :: 0 <= i < |items| ==> r.value[i] == clean(items[i], start + i).value
    ensures r.Failure? ==> exists i :: FirstFailure(items, start, clean, i) && r.error == clean(items[i], start + i).error
    decreases |items|
  {
    if |items| == 0 then Success([])
    else
      var first := clean(items[0], start);
      var rest := CleanItems(items[1..], start + 1, clean);
      if first.Failure? then
        assert FirstFailure(items, start, clean, 0);
        Failure(first.error)
      else if rest.Failure? then
        LaterFailure(items, start, clean, rest.error);
        Failure(rest.error)
      else
        AllCleaned(items, start, clean, rest.value);
        Success([first.value] + rest.value)
  }

  /** A first failure after a successful first element is a first failure of the
      whole sequence, one position further on. */
  lemma LaterFailure(items: seq<Value>, start: nat, clean: (Value, nat) -> Result<Fields, FormatError>,
                                        e: FormatError)
    requires |items| > 0 && clean(items[0], start).Success?
    requires exists i :: FirstFailure(items[1..], start + 1, clean, i) && e == clean(items[1..][i], start + 1 + i).error
    ensures exists i :: FirstFailure(items, start, clean, i) && e == clean(items[i], start + i).error
  {
    var i :| FirstFailure(items[1..], start + 1, clean, i) && e == clean(items[1..][i], start + 1 + i).error;
    forall k | 0 <= k < i + 1 ensures clean(items[k], start + k).Success? {
      if k > 0 { assert items[k] == items[1..][k - 1]; }
    }
    assert FirstFailure(items, start, clean, i + 1);
  }

  /** Cleaning the first element in front of the cleaned rest cleans every element
      at its own position. */
  lemma AllCleaned(items: seq<Value>, start: nat, clean: (Value, nat) -> Result<Fields, FormatError>,
                                      rest: seq<Fields>)
    requires |items| > 0 && clean(items[0], start).Success?
    requires |rest| == |items| - 1
    requires forall i :: 0 <= i < |rest| ==> clean(items[1..][i], start + 1 + i).Success?
    requires forall i :: 0 <= i < |rest| ==> rest[i] == clean(items[1..][i], start + 1 + i).value
    ensures forall i :: 0 <= i < |items| ==> clean(items[i], start + i).Success?
    ensures forall i :: 0 <= i < |items| ==> ([clean(items[0], start).value] + rest)[i] == clean(items[i], start + i).value
  {
    var r := [clean(items[0], start).value] + rest;
    forall i | 0 < i < |items|
      ensures clean(items[i], start + i).Success? && r[i] == clean(items[i], start + i).value
    {
      assert items[i] == items[1..][i - 1];
      assert r[i] == rest[i - 1];
    }
  }

  /** Position `i` is the first element that `clean` rejects. */
  ghost predicate FirstFailure(items: seq<Value>, start: nat, clean: (Value, nat) -> Result<Fields, FormatError>, i: int) {
    && 0 <= i < |items|
    && clean(items[i], start + i).Failure?
    && forall k :: 0 <= k < i ==> clean(items[k], start + k).Success?
  }

  /** The whole post-processing of a decoded reply (`None` when `json.loads` failed):
      all-or-nothing, order and count preserving, element `i` derived from input
      element `i` at 1-based position `i + 1` alone. */
  function Sanitize(parsed: Option<Value>): (r: Result<seq<Fields>, FormatError>)
    ensures parsed.None? ==> r == Failure(NotJson)
    ensures parsed.Some? && !parsed.value.Arr? ==> r == Failure(NotAnArray)
    ensures r.Success? <==>
      && parsed.Some? && parsed.value.Arr?
      && forall i :: 0 <= i < |parsed.value.items| ==> CleanJob(parsed.value.items[i], i + 1).Success?
    ensures r.Success? ==>
      && |r.value| == |parsed.value.items|
      && forall i :: 0 <= i < |r.value| ==> r.value[i] == CleanJob(parsed.value.items[i], i + 1).value
  {
    match parsed
    case None => Failure(NotJson)
    case Some(data) =>
      if !data.Arr? then Failure(NotAnArray)
      else CleanItems(data.items, 1, CleanJob)
  }

  /** The `for idx, job in enumerate(data, start=1)` loop as written for a step
      `clean`, appending to `cleaned` and leaving at the first failure; it computes
      what the recursive definition does. */
  method CleanLoop(data: seq<Value>, clean: (Value, nat) -> Result<Fields, FormatError>)
    returns (r: Result<seq<Fields>, FormatError>)
    ensures r == CleanItems(data, 1, clean)
  {
    var cleaned: seq<Fields> := [];
    var idx := 0;
    while idx < |data|
      invariant 0 <= idx <= |data|
      invariant |cleaned| == idx
      invariant forall i :: 0 <= i < idx ==> clean(data[i], i + 1).Success?
      invariant forall i :: 0 <= i < idx ==> cleaned[i] == clean(data[i], i + 1).value
    {
      var step := clean(data[idx], idx + 1);
      if step.Failure? {
        assert FirstFailure(data, 1, clean, idx);
        ghost var s := CleanItems(data, 1, clean);
        ghost var i :| FirstFailure(data, 1, clean, i) && s.error == clean(data[i], 1 + i).error;
        assert i == idx;
        return Failure(step.error);
      }
      cleaned := cleaned + [step.value];
      idx := idx + 1;
    }
    ghost var s := CleanItems(data, 1, clean);
    assert s.Success? && s.value == cleaned;
    return Success(cleaned);
  }

  /** Two elements of a cleaned reply that both arrived without an id end up with
      different ids: the fallback follows the position in the whole array. */
  lemma FallbackIdsDistinct(items: seq<Value>, i: nat, j: nat)
    requires Sanitize(Some(Arr(items))).Success?
    requires i < j < |items|
    requires items[i].Obj? && "id" !in items[i].fields
    requires items[j].Obj? && "id" !in items[j].fields
    ensures Sanitize(Some(Arr(items))).value[i]["id"] != Sanitize(Some(Arr(items))).value[j]["id"]
  {
    var out := Sanitize(Some(Arr(items))).value;
    CleanJobId(items[i], i + 1);
    CleanJobId(items[j], j + 1);
    assert out[i]["id"] == Str(FallbackId(i + 1));
    assert out[j]["id"] == Str(FallbackId(j + 1));
    FallbackIdInjective(i + 1, j + 1);
  }

  /** Element `i` of a cleaned reply depends on input element `i` and nothing else:
      two replies that agree there agree on the cleaned element. */
  lemma ElementIsLocal(a: seq<Value>, b: seq<Value>, i: nat)
    requires Sanitize(Some(Arr(a))).Success? && Sanitize(Some(Arr(b))).Success?
    requires i < |a| && i < |b| && a[i] == b[i]
    ensures Sanitize(Some(Arr(a))).value[i] == Sanitize(Some(Arr(b))).value[i]
  {
  }

  /** A mapping that already has a short string description, an id, and a location
      (if any) saying country CH is cleaned into itself with the description stripped. */
  lemma CleanNormalFields(c: Fields, position: nat)
    requires "description" in c && c["description"].Str? && |c["description"].s| <= MaxDescription
    requires "id" in c
    requires "location" in c && c["location"].Obj? ==>
      "country" in c["location"].fields && c["location"].fields["country"] == Str(ForcedCountry)
    ensures CleanJob(Obj(c), position) == Success(c["description" := Str(Strip(c["description"].s))])
  {
    var d := c["description"].s;
    assert CleanDescription(c["description"], position) == Success(Strip(d)) by {
      if d == [] {
        assert |Strip(d)| == 0;
      }
    }
    assert CleanJob(Obj(c), position).Success?;
    var again := CleanJob(Obj(c), position).value;
    var expected := c["description" := Str(Strip(d))];
    CleanJobDescription(Obj(c), position);
    CleanJobId(Obj(c), position);
    CleanJobOtherFields(Obj(c), position);
    assert again.Keys == c.Keys + {"description", "id"} == c.Keys;
    assert expected.Keys == c.Keys;
    if "location" in c {
      ForcedCountryStays(c, position);
    }
    SameFields(again, expected);
  }

  /** Cleaning a cleaned element again succeeds and changes nothing but the
      description, which is stripped once more. */
  lemma CleanAgain(job: Value, position: nat)
    requires CleanJob(job, position).Success?
    ensures var c := CleanJob(job, position).value;
      CleanJob(Obj(c), position) == Success(c["description" := Str(Strip(c["description"].s))])
  {
    var c := CleanJob(job, position).value;
    if "location" in c && c["location"].Obj? {
      assert "location" in job.fields;
      CleanJobLocation(job, position);
    }
    CleanNormalFields(c, position);
  }

  /** Hence cleaning is idempotent on an element whose cleaned description has no
      whitespace at its ends, which holds whenever the cut did not apply. */
  lemma CleanIdempotent(job: Value, position: nat)
    requires CleanJob(job, position).Success?
    requires Trimmed(CleanJob(job, position).value["description"].s)
    ensures CleanJob(Obj(CleanJob(job, position).value), position) == CleanJob(job, position)
  {
    var c := CleanJob(job, position).value;
    var d := c["description"].s;
    assert c["description" := Str(Strip(d))] == c by {
      StripTrimmed(d);
      SameFields(c["description" := Str(d)], c);
    }
    CleanAgain(job, position);
  }

  /** Objects with the same keys and the same value under each key are equal. */
  lemma SameFields(a: Fields, b: Fields)
    requires a.Keys == b.Keys
    requires forall k :: k in a ==> a[k] == b[k]
    ensures a == b
  {
  }

  /** A location that already says country CH comes out of cleaning as it went in. */
  lemma ForcedCountryStays(c: Fields, position: nat)
    requires CleanJob(Obj(c), position).Success?
    requires "location" in c
    requires c["location"].Obj? ==> "country" in c["location"].fields && c["location"].fields["country"] == Str(ForcedCountry)
    ensures CleanJob(Obj(c), position).value["location"] == c["location"]
  {
  }

  /** The cut can leave whitespace at the end of a description: 299 letters, a
      space and one more letter are cut to the letters and the space. */
  lemma CutCanEndInWhitespace()
    ensures var job := Obj(map["description" := Str(seq(299, _ => 'a') + " b")]);
      && CleanJob(job, 1).Success?
      && !Trimmed(CleanJob(job, 1).value["description"].s)
  {
  }
}
