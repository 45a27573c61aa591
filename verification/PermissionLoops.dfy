/** The loops that build intersections and merges in place. */
module PermissionLoops {
  import opened Permissions

  /** A growing list takes each value it does not hold yet, so repeats among the new values are dropped too. */
  method ExtendList(current: seq<Value>, more: seq<Value>) returns (longer: seq<Value>)
    ensures longer == Extend(current, more)
  {
    longer := current;
    for i := 0 to |more|
      invariant longer == Extend(current, more[..i])
    {
      assert more[..i + 1][..i] == more[..i];
      if more[i] !in longer {
        longer := longer + [more[i]];
      }
    }
    assert more[..|more|] == more;
  }

  method MergeInto(current: Profile, profile: Profile) returns (result: Profile)
    ensures result == Merge(current, profile)
    decreases Fields(profile)
  {
    result := current;
    ghost var goal := Merge(current, profile);
    var keys := profile.Keys;
    while keys != {}
      invariant keys <= profile.Keys
      invariant forall k :: k in result <==> k in current || (k in profile && k !in keys)
      invariant forall k :: k in result ==> result[k] == if k in keys then current[k] else goal[k]
      decreases keys
    {
      var key :| key in keys;
      var value := profile[key];
      if key !in result {
        result := result[key := value];
      } else {
        var held := result[key];
        assert held == current[key] && goal[key] == Joined(held, value);
        if held.Fields? && value.Fields? {
          var both := MergeInto(held.fields, value.fields);
          assert Fields(held.fields) == held && Fields(value.fields) == value;
          result := result[key := Fields(both)];
        } else if held.Items? && value.Items? {
          var longer := ExtendList(held.items, value.items);
          result := result[key := Items(longer)];
        }
      }
      keys := keys - {key};
    }
    assert result.Keys == goal.Keys;
  }

  method MergeProfiles(profiles: seq<Profile>) returns (result: Profile)
    ensures result == MergeAll(profiles)
  {
    result := map[];
    for i := 0 to |profiles|
      invariant result == MergeAll(profiles[..i])
    {
      assert profiles[..i + 1][..i] == profiles[..i];
      result := MergeInto(result, profiles[i]);
    }
    assert profiles[..|profiles|] == profiles;
  }

  method IntersectValue(requested: Value, granted: Value) returns (r: Value)
    ensures r == Intersect(requested, granted)
    decreases granted, 1
  {
    if requested.Fields? && granted.Fields? {
      var result: Profile := map[];
      var keys := granted.fields.Keys;
      while keys != {}
        invariant keys <= granted.fields.Keys
        invariant forall k :: k in result <==> k in granted.fields && k !in keys && k in requested.fields
                                               && !Empty(Intersect(requested.fields[k], granted.fields[k]))
        invariant forall k :: k in result ==> result[k] == Intersect(requested.fields[k], granted.fields[k])
        decreases keys
      {
        var key :| key in keys;
        if key in requested.fields {
          var item := IntersectValue(requested.fields[key], granted.fields[key]);
          if item != Null && item != Fields(map[]) && item != Items([]) {
            result := result[key := item];
          }
        }
        keys := keys - {key};
      }
      r := Fields(result);
      assert result == Intersect(requested, granted).fields;
    } else if requested.Items? && granted.Items? {
      var result := IntersectLists(requested.items, granted.items);
      r := Items(result);
    } else {
      r := if requested == granted then granted else Null;
    }
  }

  method IntersectLists(requested: seq<Value>, granted: seq<Value>) returns (result: seq<Value>)
    ensures result == Picked(requested, granted)
    decreases granted, 1
  {
    hide Intersect;
    result := [];
    for j := 0 to |granted|
      invariant result == Picked(requested, granted[..j])
    {
      assert granted[..j + 1][..j] == granted[..j];
      var i := 0;
      while i < |requested|
        invariant 0 <= i <= |requested|
        invariant FirstOverlap(requested, granted[j], 0) == FirstOverlap(requested, granted[j], i)
      {
        var overlap := IntersectValue(requested[i], granted[j]);
        if overlap != Null && overlap != Fields(map[]) && overlap != Items([]) {
          result := result + [overlap];
          break;
        }
        i := i + 1;
      }
    }
    assert granted[..|granted|] == granted;
  }
}
