/** ResultKey: the generated key an insert returns, and the typed views of
    it. A key of the wrong class makes the cast throw. */
module ResultKeys {
  import opened Wrappers
  import opened JavaValues

  /** The key as the driver returned it; None is a null key. */
  datatype ResultKey = ResultKey(key: Option<Value>)

  /** asLong: a Long key, or null. */
  function AsLong(k: ResultKey): (r: Result<Option<Int64>, JavaError>)
    ensures r.Ok? <==> k.key.None? || k.key.value.LongValue?
    ensures r.Ok? && r.value.Some? ==> k.key == Some(LongValue(r.value.value))
    ensures r.Err? ==> r.error == ClassCast
  {
    match k.key
    case None => Ok(None)
    case Some(LongValue(l)) => Ok(Some(l))
    case Some(_) => Err(ClassCast)
  }

  /** asBigInteger: a BigInteger key, or null. */
  function AsBigInteger(k: ResultKey): (r: Result<Option<int>, JavaError>)
    ensures r.Ok? <==> k.key.None? || k.key.value.BigIntegerValue?
    ensures r.Ok? && r.value.Some? ==> k.key == Some(BigIntegerValue(r.value.value))
    ensures r.Err? ==> r.error == ClassCast
  {
    match k.key
    case None => Ok(None)
    case Some(BigIntegerValue(b)) => Ok(Some(b))
    case Some(_) => Err(ClassCast)
  }

  /** asInt: a Long or BigInteger key narrowed by intValue(), an Integer
      key as it is, a null key as null; anything else fails the cast. */
  function AsInt(k: ResultKey): (r: Result<Option<Int32>, JavaError>)
    ensures r.Err? <==> k.key.Some? && (k.key.value.StringValue? || k.key.value.OtherValue?)
  {
    match k.key
    case Some(LongValue(_)) => Ok(Some(ToInt32(AsLong(k).value.value)))
    case Some(BigIntegerValue(_)) => Ok(Some(ToInt32(AsBigInteger(k).value.value)))
    case Some(IntegerValue(i)) => Ok(Some(i))
    case None => Ok(None)
    case Some(_) => Err(ClassCast)
  }

  /** asString: toString() of the key; a null key throws. */
  function AsString(k: ResultKey): (r: Result<string, JavaError>)
    ensures r.Err? <==> k.key.None?
    ensures r.Err? ==> r.error == NullPointer
  {
    if k.key.None? then Err(NullPointer) else Ok(ValueText(k.key.value))
  }

  /** asInt keeps the low 32 bits of a wide key: the result agrees with the
      key modulo 2^32, and is the key itself when the key fits in an int. */
  lemma {:induction false} AsIntNarrows(k: ResultKey)
    requires k.key.Some? && (k.key.value.LongValue? || k.key.value.BigIntegerValue?)
    ensures var wide := if k.key.value.LongValue? then k.key.value.l else k.key.value.b;
            && AsInt(k).Ok? && AsInt(k).value.Some?
            && (AsInt(k).value.value - wide) % TwoTo32 == 0
            && (-TwoTo31 <= wide < TwoTo31 ==> AsInt(k).value.value == wide)
  {
    var wide := if k.key.value.LongValue? then k.key.value.l else k.key.value.b;
    assert AsInt(k) == Ok(Some(ToInt32(wide)));
    if -TwoTo31 <= wide < TwoTo31 {
      ToInt32Identity(wide);
    }
  }

  /** The typed views agree: a Long key read through asInt and asLong
      gives the same number whenever it fits in an int. */
  lemma {:induction false} AsIntAgreesWithAsLong(l: Int64)
    requires -TwoTo31 <= l < TwoTo31
    ensures AsInt(ResultKey(Some(LongValue(l)))) == Ok(Some(l as Int32))
    ensures AsLong(ResultKey(Some(LongValue(l)))) == Ok(Some(l))
  {
    ToInt32Identity(l);
  }

  /** 2^32 + 5 saved as a Long reads back through asInt as 5. */
  lemma {:induction false} AsIntWrapsAround()
    ensures AsInt(ResultKey(Some(LongValue(TwoTo32 + 5)))) == Ok(Some(5))
  {
    assert (TwoTo32 + 5) % TwoTo32 == 5;
  }
}
