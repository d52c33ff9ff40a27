/**
 * The settings document: a YAML mapping from top-level keys to nodes, the
 * typed reads `get<size_t>` and `get<std::vector<std::string>>` performed on
 * it, and the shallow merge that `Config::override` applies.
 */
module Settings {
  import opened Wrappers
  import Decimal

  /** One YAML node. A nested mapping is a value like any other. */
  datatype Value =
    | Null
    | Scalar(text: string)
    | Sequence(items: seq<Value>)
    | Mapping(entries: map<string, Value>)

  /** Top-level keys and their values; keys are unique. */
  type Document = map<string, Value>

  /** Why a typed read failed: the key is absent, or its node does not convert. */
  datatype ReadError = MissingKey(key: string) | WrongType(key: string)

  /** `get<size_t>(key)`: a scalar holding a decimal number. */
  function GetCount(doc: Document, key: string): Result<nat, ReadError> {
    if key !in doc then Err(MissingKey(key))
    else match doc[key]
      case Scalar(t) => if Decimal.IsDigits(t) then Ok(Decimal.Parse(t)) else Err(WrongType(key))
      case _ => Err(WrongType(key))
  }

  /** `get<std::vector<std::string>>(key)`: a sequence whose items are all scalars. */
  function GetStrings(doc: Document, key: string): Result<seq<string>, ReadError> {
    if key !in doc then Err(MissingKey(key))
    else match doc[key]
      case Sequence(items) =>
        if forall i :: 0 <= i < |items| ==> items[i].Scalar? then
          Ok(seq(|items|, i requires 0 <= i < |items| => items[i].text))
        else Err(WrongType(key))
      case _ => Err(WrongType(key))
  }

  /** The node a list of strings is written as. */
  function Scalars(texts: seq<string>): (v: Value)
    ensures v.Sequence? && |v.items| == |texts|
    ensures forall i :: 0 <= i < |texts| ==> v.items[i] == Scalar(texts[i])
  {
    Sequence(seq(|texts|, i requires 0 <= i < |texts| => Scalar(texts[i])))
  }

  /** A count written as its decimal text reads back as that count. */
  lemma CountReadsBack(doc: Document, key: string, n: nat)
    ensures GetCount(doc[key := Scalar(Decimal.Format(n))], key) == Ok(n)
  {
    Decimal.ParseFormat(n);
  }

  /** A list of strings written as a sequence of scalars reads back unchanged. */
  lemma StringsReadBack(doc: Document, key: string, texts: seq<string>)
    ensures GetStrings(doc[key := Scalars(texts)], key) == Ok(texts)
  {
    var items := Scalars(texts).items;
    assert seq(|items|, i requires 0 <= i < |items| => items[i].text) == texts;
  }

  /** Reading one key is not affected by writing another. */
  lemma ReadsAreLocal(doc: Document, key: string, other: string, v: Value)
    requires other != key
    ensures GetCount(doc[other := v], key) == GetCount(doc, key)
    ensures GetStrings(doc[other := v], key) == GetStrings(doc, key)
  {
  }

  /**
   * `override(params)` on a document: every top-level key of `params`
   * takes `params`' value wholesale (no merge inside nested nodes), every
   * other key keeps its value, and no key is dropped.
   */
  function Overridden(base: Document, params: Document): (d: Document)
    ensures d.Keys == base.Keys + params.Keys
    ensures forall k :: k in params ==> d[k] == params[k]
    ensures forall k :: k in base && k !in params ==> d[k] == base[k]
  {
    base + params
  }

  /** Applying the same document twice leaves the store as applying it once. */
  lemma OverrideIdempotent(base: Document, params: Document)
    ensures Overridden(Overridden(base, params), params) == Overridden(base, params)
  {
  }

  /** Two overrides in a row are one override with the later document winning. */
  lemma OverrideSequence(base: Document, first: Document, second: Document)
    ensures Overridden(Overridden(base, first), second) == Overridden(base, Overridden(first, second))
  {
  }

  /** Overriding with an empty document changes nothing. */
  lemma OverrideEmpty(base: Document)
    ensures Overridden(base, map[]) == base
  {
  }
}
