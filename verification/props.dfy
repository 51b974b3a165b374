/**
 * The renderer's flat scene description: a property set maps dotted keys such
 * as `scene.objects.<name>.material` to values. `Properties.Set` of one set
 * into another overwrites equal keys, which is map union with the right side
 * winning.
 */
module PropertySets {
  import opened Strings

  /** A property value: a string, a bool, one float, or a list of floats. */
  datatype Value = Str(s: string) | Bool(b: bool) | Num(x: real) | Floats(xs: seq<real>)

  type Props = map<string, Value>

  /** `create_props`: every definition key `k` becomes `prefix + k`, its value unchanged. */
  function CreateProps(prefix: string, definitions: Props): (p: Props)
    ensures forall k :: k in definitions ==> prefix + k in p && p[prefix + k] == definitions[k]
    ensures forall key :: key in p ==> StartsWith(key, prefix) && key[|prefix|..] in definitions
  {
    PrependInjective(prefix);
    var p := map k | k in definitions :: prefix + k := definitions[k];
    assert forall k :: k in definitions ==> (prefix + k)[|prefix|..] == k;
    p
  }

  lemma PrependInjective(prefix: string)
    ensures forall a, b {:trigger prefix + a, prefix + b} :: prefix + a == prefix + b ==> a == b
  {
    forall a, b | prefix + a == prefix + b
      ensures a == b
    {
      assert a == (prefix + a)[|prefix|..];
      assert b == (prefix + b)[|prefix|..];
    }
  }

  /** Keys under `prefix`, with the prefix removed: the inverse of `CreateProps`. */
  function StripPrefix(prefix: string, p: Props): Props {
    var suffixes := set key | key in p && StartsWith(key, prefix) :: key[|prefix|..];
    assert forall k :: k in suffixes ==> prefix + k in p by {
      forall k | k in suffixes
        ensures prefix + k in p
      {
        var key :| key in p && StartsWith(key, prefix) && key[|prefix|..] == k;
        assert key == prefix + k;
      }
    }
    map k | k in suffixes :: p[prefix + k]
  }

  /** Stripping the prefix recovers exactly the definitions `create_props` was given. */
  lemma CreatePropsRoundTrip(prefix: string, definitions: Props)
    ensures StripPrefix(prefix, CreateProps(prefix, definitions)) == definitions
  {
    var p := CreateProps(prefix, definitions);
    var q := StripPrefix(prefix, p);
    forall k | k in definitions
      ensures k in q && q[k] == definitions[k]
    {
      assert prefix + k in p;
      assert (prefix + k)[|prefix|..] == k;
    }
    forall k | k in q
      ensures k in definitions
    {
      assert prefix + k in p;
      assert (prefix + k)[|prefix|..] == k;
    }
  }
}
