/**
 * The wizard's `FormData` (`{ [key: string]: string | boolean }`), JavaScript
 * truthiness of a field, the object spread `{ ...prev, ...data }`, and the
 * per-field error maps (`Record<string, string>`) the forms keep.
 */
module FormValues {

  datatype Value = Str(text: string) | Bool(flag: bool)

  type Record = map<string, Value>

  /** Field name to error message. */
  type Errors = map<string, string>

  /** `!!v` for a string or boolean. */
  predicate Truthy(v: Value) {
    match v
    case Str(t) => t != ""
    case Bool(b) => b
  }

  /** `!!record[key]`: present and truthy (a missing key reads as `undefined`). */
  predicate Filled(r: Record, key: string) {
    key in r && Truthy(r[key])
  }

  /** `{ ...prev, ...data }`: the keys of `data` win, every other key of `prev` is kept. */
  function Merge(prev: Record, data: Record): (r: Record)
    ensures r.Keys == prev.Keys + data.Keys
    ensures forall k :: k in data ==> r[k] == data[k]
    ensures forall k :: k in prev && k !in data ==> r[k] == prev[k]
  {
    prev + data
  }

  /** Merging the same data twice is merging it once. */
  lemma MergeIdempotent(prev: Record, data: Record)
    ensures Merge(Merge(prev, data), data) == Merge(prev, data)
  {
  }

  /** Two successive merges are one merge of the later data over the earlier. */
  lemma MergeTwice(prev: Record, d1: Record, d2: Record)
    ensures Merge(Merge(prev, d1), d2) == Merge(prev, Merge(d1, d2))
  {
  }

  /**
   * The guarded delete every form performs on input: `if (errors[name])
   * delete errors[name]`. The named error goes, every other error stays.
   * An empty message is falsy and would stay, but no form ever stores one.
   */
  function ClearError(e: Errors, name: string): (r: Errors)
    ensures forall k :: k != name ==> (k in r <==> k in e) && (k in r ==> r[k] == e[k])
    ensures name in r <==> name in e && e[name] == ""
    ensures name in r ==> r[name] == ""
    ensures r.Keys <= e.Keys
  {
    if name in e && e[name] != "" then e - {name} else e
  }
}
