/** The Cache-Control token test used by `hasCacheControlValues`. */
module HasNoValuesProcessor {

  /**
   * `new HasNoValuesProcessor(values).process(value)`: scans the configured values and
   * answers false at the first one equal to `value` (exact, case-sensitive comparison,
   * no trimming), true when none is.
   */
  function Process(values: seq<string>, value: string): (r: bool)
    ensures r <==> value !in values
  {
    if values == [] then true
    else if values[0] == value then false
    else Process(values[1..], value)
  }

  /** With no configured values every token passes. */
  lemma ProcessEmpty(value: string)
    ensures Process([], value)
  {
  }

  /** Only the set of configured values matters, not their order or repetitions. */
  lemma ProcessOrderIrrelevant(a: seq<string>, b: seq<string>, value: string)
    requires forall x :: x in a <==> x in b
    ensures Process(a, value) == Process(b, value)
  {
  }

  /** Example: the comparison is exact, so neither case nor surrounding blanks are forgiven. */
  lemma ProcessIsExact()
    ensures Process(["no-cache"], "No-Cache")
    ensures Process(["no-cache"], " no-cache")
    ensures !Process(["no-cache"], "no-cache")
  {
    assert "No-Cache" != "no-cache" by {
      assert "No-Cache"[0] != "no-cache"[0];
    }
    assert |" no-cache"| != |"no-cache"|;
  }
}
