/** PVC keys: "namespace/name". */
module Keys {

  import opened Text

  datatype Key = Key(text: string)

  function KeyOf(namespace: string, name: string): Key {
    Key(namespace + "/" + name)
  }

  /** Cuts a key at its first slash; a key without one has an empty namespace. */
  method SplitKey(key: string) returns (namespace: string, name: string)
    ensures '/' in key ==> '/' !in namespace && key == namespace + "/" + name
    ensures '/' !in key ==> namespace == "" && name == key
  {
    for i := 0 to |key|
      invariant '/' !in key[..i]
    {
      if key[i] == '/' {
        return key[..i], key[i + 1..];
      }
    }
    assert key[..|key|] == key;
    return "", key;
  }

  /** What was joined is what SplitKey returns, and no two PVCs share a key. */
  lemma KeyInjective(namespace: string, name: string, namespace': string, name': string)
    requires '/' !in namespace && '/' !in namespace'
    requires namespace + "/" + name == namespace' + "/" + name'
    ensures namespace == namespace' && name == name'
  {
    CutUnique(namespace, name, namespace', name', '/');
  }
}
