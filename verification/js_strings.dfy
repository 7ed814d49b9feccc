/** The two `String.prototype` tests the route-permission rule uses, with no
    position argument. A string is a sequence of Unicode scalar values; for
    well-formed strings prefix and suffix tests agree with JavaScript's tests
    over UTF-16 code units. */
module JsStrings {

  /** `s.startsWith(search)`: the first |search| code units of `s` are `search`;
      false when `search` is longer than `s`. */
  function StartsWith(s: string, search: string): (r: bool)
    ensures r <==> exists rest :: s == search + rest
    ensures r ==> |search| <= |s|
  {
    if |search| <= |s| && s[..|search|] == search then
      assert s == search + s[|search|..];
      true
    else
      false
  }

  /** `s.endsWith(search)`: the last |search| code units of `s` are `search`;
      false when `search` is longer than `s`. */
  function EndsWith(s: string, search: string): (r: bool)
    ensures r <==> exists front :: s == front + search
    ensures r ==> |search| <= |s|
  {
    if |search| <= |s| && s[|s| - |search|..] == search then
      assert s == s[..|s| - |search|] + search;
      true
    else
      false
  }

  /** Every string starts and ends with itself and with the empty string. */
  lemma SelfAndEmpty(s: string)
    ensures StartsWith(s, s) && EndsWith(s, s)
    ensures StartsWith(s, "") && EndsWith(s, "")
  {
  }
}
