/**
 * What the REST framework's serializers do with the fields the project's
 * serializers declare: text fields are stripped, refused when blank and held
 * to their length bounds; read-only fields are never taken from the client;
 * write-only fields are never sent back.
 */
module SerializerFields {
  import opened Wrappers
  import opened Text

  /** The error codes of a text field. */
  datatype TextError = Required | Blank | TooLong | NullCharacter

  /** The NUL character, which `ProhibitNullCharactersValidator` refuses. */
  const Nul: char := '\0'

  /**
   * A required `CharField` (a model CharField or TextField): the input is
   * stripped, an empty result is refused as blank, then the maximum length,
   * if any, applies, and then the NUL character is refused. (The framework
   * also refuses surrogate code points, which a Dafny `char` cannot hold.)
   */
  function CleanText(raw: Option<string>, maxLength: Option<nat>): (r: Result<string, TextError>)
    ensures raw.None? ==> r == Err(Required)
    ensures r.Ok? ==> raw.Some? && r.value == Trim(raw.value) && r.value != "" && Nul !in r.value
    ensures r.Ok? && maxLength.Some? ==> |r.value| <= maxLength.value
    ensures raw.Some? && Trim(raw.value) == "" ==> r == Err(Blank)
    ensures raw.Some? && Trim(raw.value) != "" && (maxLength.None? || |Trim(raw.value)| <= maxLength.value) ==>
              (r.Ok? <==> Nul !in Trim(raw.value))
    ensures (raw.Some? && Trim(raw.value) != "" && (maxLength.None? || |Trim(raw.value)| <= maxLength.value)
             && Nul in Trim(raw.value)) ==> r == Err(NullCharacter)
  {
    match raw
    case None => Err(Required)
    case Some(s) =>
      var v := Trim(s);
      if v == "" then Err(Blank)
      else if maxLength.Some? && |v| > maxLength.value then Err(TooLong)
      else if Nul in v then Err(NullCharacter)
      else Ok(v)
  }

  /** A serializer's `Meta`: its fields, and which of them are read-only or write-only. */
  datatype FieldSpec = FieldSpec(fields: set<string>, readOnly: set<string>, writeOnly: set<string>)

  /** The fields a client may send. */
  function InputFields(s: FieldSpec): set<string> {
    s.fields - s.readOnly
  }

  /** The fields a response shows. */
  function OutputFields(s: FieldSpec): set<string> {
    s.fields - s.writeOnly
  }

  /**
   * The values a save writes: the client's data for the writable fields it
   * sent, the instance's own value for everything else. A read-only field
   * always keeps the instance's value, whatever the client sent.
   */
  function AcceptInput<V>(s: FieldSpec, instance: map<string, V>, data: map<string, V>): (r: map<string, V>)
    ensures r.Keys == instance.Keys + (data.Keys * InputFields(s))
    ensures forall f :: f in instance && f in s.readOnly ==> r[f] == instance[f]
    ensures forall f :: f in data && f in InputFields(s) ==> r[f] == data[f]
    ensures forall f :: f in instance && f !in data ==> r[f] == instance[f]
  {
    map f | f in instance.Keys + (data.Keys * InputFields(s)) ::
      if f in data && f in InputFields(s) then data[f] else instance[f]
  }

  /** Sending only read-only fields changes nothing. */
  lemma ReadOnlyDataIsIgnored<V>(s: FieldSpec, instance: map<string, V>, data: map<string, V>)
    requires data.Keys <= s.readOnly
    ensures AcceptInput(s, instance, data) == instance
  {
    assert AcceptInput(s, instance, data).Keys == instance.Keys;
  }
}
