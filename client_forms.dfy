/** What the admin pages do with an imported JSON object: the per-field
    fallbacks of their form merges, and the features conversion on submit. */
module ClientForms {
  import opened Base
  import opened Text
  import opened Json

  datatype ToastKind = Success | Error

  /** A notification shown by `showToast(message, kind)`. */
  datatype Toast = Toast(message: string, kind: ToastKind)

  /** `err.message || fallback`: the thrown error's message, or the fixed
      text when it has none. */
  function FailureText(message: string, fallback: string): (r: string)
    ensures message != "" ==> r == message
    ensures message == "" ==> r == fallback
  {
    if message != "" then message else fallback
  }

  /** `v || fallback`. */
  function Or(v: JsValue, fallback: JsValue): (r: JsValue)
    ensures Truthy(v) ==> r == v
    ensures !Truthy(v) ==> r == fallback
  {
    if Truthy(v) then v else fallback
  }

  /** The category merge: an array is taken as it is, any other truthy
      value is wrapped in a one-element array, anything else falls back. */
  function CategoryOr(v: JsValue, fallback: JsValue): (r: JsValue)
    ensures fallback.Arr? ==> r.Arr?
  {
    if IsArray(v) then v
    else if Truthy(v) then Arr([v])
    else fallback
  }

  /** A merged category list is taken back unchanged by a second merge. */
  lemma CategoryOrStable(v: JsValue, fallback: JsValue, other: JsValue)
    requires fallback.Arr?
    ensures CategoryOr(CategoryOr(v, fallback), other) == CategoryOr(v, fallback)
    ensures Truthy(v) && !v.Arr? ==> CategoryOr(v, fallback).items == [v]
  {
  }

  /** `v !== undefined ? v.toString() : fallback`; `None` is the
      `TypeError` that `null.toString()` throws. */
  function NumberText(v: JsValue, fallback: string): (r: Option<string>)
    ensures r.None? <==> v.Null?
    ensures v.Undefined? ==> r == Some(fallback)
  {
    if v.Undefined? then Some(fallback)
    else CallToString(v)
  }

  /** The features merge: an array becomes its `join(", ")`. */
  function FeaturesOr(v: JsValue, fallback: JsValue): JsValue {
    if IsArray(v) then Str(JoinValues(v.items, ", ")) else Or(v, fallback)
  }

  function Strs(parts: seq<string>): (r: seq<JsValue>)
    ensures |r| == |parts| && forall i :: 0 <= i < |parts| ==> r[i] == Str(parts[i])
  {
    seq(|parts|, i requires 0 <= i < |parts| => Str(parts[i]))
  }

  /** The features as submitted: text is split at the commas, trimmed and
      stripped of empty entries; any other value is sent as it is. */
  function SubmitFeatures(v: JsValue): (r: JsValue)
    ensures v.Str? ==> r.Arr? && forall i :: 0 <= i < |r.items| ==> r.items[i].Str? && IsEntry(r.items[i].s)
    ensures !v.Str? ==> r == v
  {
    if v.Str? then Arr(Strs(SplitList(v.s))) else v
  }

  lemma {:induction false} JoinStrs(parts: seq<string>, sep: string)
    ensures JoinValues(Strs(parts), sep) == Join(parts, sep)
  {
    var vs := Strs(parts);
    if |parts| == 1 {
      assert ElementText(vs[0]) == parts[0];
    } else if |parts| > 1 {
      JoinStrs(parts[1..], sep);
      assert ElementText(vs[0]) == parts[0];
      assert vs[1..] == Strs(parts[1..]);
    }
  }

  /** Importing a features array of visible, comma-free entries and
      submitting the form sends the same entries back. */
  lemma FeaturesRoundTrip(parts: seq<string>, fallback: JsValue)
    requires forall k :: 0 <= k < |parts| ==> IsEntry(parts[k])
    ensures SubmitFeatures(FeaturesOr(Arr(Strs(parts)), fallback)) == Arr(Strs(parts))
  {
    JoinStrs(parts, ", ");
    SplitListJoin(parts);
  }
}
