/** normalizeDeploymentIDs of internal/patch/deployment_create.go: the device list a deployment is created for. */
module DeploymentCreate {
  import opened Strings

  /** The trimmed, non-empty values at their first occurrence. */
  function Normalized(values: seq<string>): seq<string> {
    if values == [] then []
    else
      var earlier := Normalized(values[..|values| - 1]);
      var value := TrimSpace(values[|values| - 1]);
      if value == "" || value in earlier then earlier else earlier + [value]
  }

  method NormalizeDeploymentIDs(values: seq<string>) returns (clean: seq<string>)
    ensures clean == Normalized(values)
  {
    clean := [];
    var seen: set<string> := {};
    for n := 0 to |values|
      invariant clean == Normalized(values[..n])
      invariant seen == (set v | v in clean)
    {
      var value := TrimSpace(values[n]);
      assert values[..n + 1][..n] == values[..n];
      if value != "" && value !in seen {
        seen := seen + {value};
        clean := clean + [value];
      }
    }
    assert values[..|values|] == values;
  }

  lemma {:induction false} NormalizedMembers(values: seq<string>, v: string)
    ensures v in Normalized(values) <==> v != "" && exists i :: 0 <= i < |values| && TrimSpace(values[i]) == v
  {
    if values != [] {
      var n := |values| - 1;
      NormalizedMembers(values[..n], v);
      assert forall i :: 0 <= i < n ==> values[..n][i] == values[i];
      if i :| 0 <= i < |values| && TrimSpace(values[i]) == v {
        assert i < n ==> TrimSpace(values[..n][i]) == v;
      }
    }
  }

  lemma {:induction false} NormalizedDistinct(values: seq<string>)
    ensures var clean := Normalized(values);
            && (forall i, j :: 0 <= i < j < |clean| ==> clean[i] != clean[j])
            && |clean| == |set v | v in clean|
  {
    if values != [] {
      NormalizedDistinct(values[..|values| - 1]);
      var earlier, clean := Normalized(values[..|values| - 1]), Normalized(values);
      if clean != earlier {
        assert (set v | v in clean) == (set v | v in earlier) + {clean[|earlier|]};
      }
    }
  }

  /** The created rows: no duplicates, nothing blank or untrimmed, exactly the trimmed inputs; so device_count is the
      number of distinct devices. */
  lemma NormalizedIsDistinctInput(values: seq<string>)
    ensures var clean := Normalized(values);
            && (forall i, j :: 0 <= i < j < |clean| ==> clean[i] != clean[j])
            && (forall v :: v in clean <==> v != "" && exists i :: 0 <= i < |values| && TrimSpace(values[i]) == v)
            && |clean| == |set v | v in clean|
  {
    NormalizedDistinct(values);
    forall v
      ensures v in Normalized(values) <==> v != "" && exists i :: 0 <= i < |values| && TrimSpace(values[i]) == v
    {
      NormalizedMembers(values, v);
    }
  }

  /** Creating a deployment from an already created device list changes nothing. */
  lemma {:induction false} NormalizedIdempotent(values: seq<string>)
    ensures Normalized(Normalized(values)) == Normalized(values)
  {
    if values != [] {
      var n := |values| - 1;
      var earlier, clean := Normalized(values[..n]), Normalized(values);
      NormalizedIdempotent(values[..n]);
      if clean != earlier {
        TrimSpaceIdempotent(values[n]);
        assert clean[..|clean| - 1] == earlier;
      }
    }
  }
}
