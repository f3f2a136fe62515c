/** A `FormData` as an ordered list of key/value entries; a key may repeat. */
module FormDataEntries {
  import opened JsValues

  type FormData = seq<(string, string)>

  /** `formData.get(key)`: the value of the FIRST entry with that key, or null. */
  function Get(fd: FormData, key: string): (r: Option<string>)
    ensures r.None? <==> forall i :: 0 <= i < |fd| ==> fd[i].0 != key
    ensures r.Some? ==> exists i :: 0 <= i < |fd| && fd[i] == (key, r.value)
                                    && forall j :: 0 <= j < i ==> fd[j].0 != key
  {
    if |fd| == 0 then None
    else if fd[0].0 == key then Some(fd[0].1)
    else
      var r := Get(fd[1..], key);
      if r.Some? then
        ghost var i :| 0 <= i < |fd[1..]| && fd[1..][i] == (key, r.value)
                       && forall j :: 0 <= j < i ==> fd[1..][j].0 != key;
        assert fd[i + 1] == (key, r.value);
        assert forall j :: 0 < j < i + 1 ==> fd[j] == fd[1..][j - 1];
        r
      else
        assert forall i :: 0 < i < |fd| ==> fd[i] == fd[1..][i - 1];
        r
  }

  /** `get` on two lists of entries appended: the first list wins. */
  lemma {:induction false} GetAppend(a: FormData, b: FormData, key: string)
    ensures Get(a + b, key) == if Get(a, key).Some? then Get(a, key) else Get(b, key)
  {
    if |a| > 0 {
      assert (a + b)[0] == a[0];
      if a[0].0 != key {
        assert (a + b)[1..] == a[1..] + b;
        GetAppend(a[1..], b, key);
      }
    } else {
      assert a + b == b;
    }
  }

  /** All entries with this key carry the same value. */
  predicate AgreeOnKey(fd: FormData, key: string) {
    forall i, j :: 0 <= i < |fd| && 0 <= j < |fd| && fd[i].0 == key && fd[j].0 == key ==> fd[i].1 == fd[j].1
  }
}
