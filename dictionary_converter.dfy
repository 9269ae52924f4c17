/**
 * DictionaryConverter.Concatenate: merging dictionaries with SelectMany /
 * ToLookup / ToDictionary, where each key keeps the value of its last
 * occurrence and so the last dictionary that holds a key wins.  Keys are
 * strings, as in both overloads.
 */
module DictionaryConverter {

  /** The array overload. */
  function Concatenate<V>(dictionaries: seq<map<string, V>>): (r: map<string, V>)
    ensures forall k :: k in r <==> exists i :: 0 <= i < |dictionaries| && k in dictionaries[i]
    decreases |dictionaries|
  {
    if dictionaries == [] then map[]
    else
      var init := dictionaries[..|dictionaries| - 1];
      var last := dictionaries[|dictionaries| - 1];
      var r := Concatenate(init) + last;
      assert forall k :: k in r <==> exists i :: 0 <= i < |dictionaries| && k in dictionaries[i] by {
        forall k ensures k in r <==> exists i :: 0 <= i < |dictionaries| && k in dictionaries[i] {
          if k in r && k !in last {
            var i :| 0 <= i < |init| && k in init[i];
            assert dictionaries[i] == init[i];
          }
          if exists i :: 0 <= i < |dictionaries| && k in dictionaries[i] {
            var i :| 0 <= i < |dictionaries| && k in dictionaries[i];
            if i < |init| {
              assert init[i] == dictionaries[i];
            }
          }
        }
      }
      r
  }

  /** The two-dictionary overload: the array overload on [dict1, dict2]. */
  function ConcatenatePair<V>(dict1: map<string, V>, dict2: map<string, V>): (r: map<string, V>)
    ensures r.Keys == dict1.Keys + dict2.Keys
    ensures forall k :: k in dict2 ==> r[k] == dict2[k]
    ensures forall k :: k in dict1 && k !in dict2 ==> r[k] == dict1[k]
  {
    var dictionaries := [dict1, dict2];
    assert dictionaries[..1] == [dict1];
    assert dictionaries[..1][..0] == [];
    assert Concatenate([dict1]) == map[] + dict1 == dict1;
    assert Concatenate(dictionaries) == dict1 + dict2;
    Concatenate(dictionaries)
  }

  /** Each key takes its value from the last dictionary in the array that holds it. */
  lemma {:induction false} LastDictionaryWins<V>(dictionaries: seq<map<string, V>>, k: string, j: nat)
    requires j < |dictionaries| && k in dictionaries[j]
    requires forall i :: j < i < |dictionaries| ==> k !in dictionaries[i]
    ensures k in Concatenate(dictionaries) && Concatenate(dictionaries)[k] == dictionaries[j][k]
    decreases |dictionaries|
  {
    var init := dictionaries[..|dictionaries| - 1];
    if j < |dictionaries| - 1 {
      assert init[j] == dictionaries[j];
      assert forall i :: j < i < |init| ==> init[i] == dictionaries[i];
      LastDictionaryWins(init, k, j);
    }
  }

  /** Merging with an empty dictionary, on either side, keeps the contents. */
  lemma ConcatenateWithEmpty<V>(dict: map<string, V>)
    ensures ConcatenatePair(dict, map[]) == dict
    ensures ConcatenatePair(map[], dict) == dict
  {
  }

  /** Merging a dictionary with itself keeps the contents. */
  lemma ConcatenateWithItself<V>(dict: map<string, V>)
    ensures ConcatenatePair(dict, dict) == dict
  {
  }
}
