/** Export names: sanitising, pretty names and the address key. */
module Naming {
  import opened Maybe
  import opened Strings
  import opened Blender

  /** ASCII letters, decimal digits and `_`: the characters an export name may contain. */
  predicate IsAllowed(c: char) {
    c == '_' || IsDigit(c) || IsLetter(c)
  }

  /** A string the renderer accepts as a name part. */
  predicate IsLuxcoreName(s: string) {
    forall i :: 0 <= i < |s| ==> IsAllowed(s[i])
  }

  /** Drops the leading run of disallowed characters. */
  function SkipDisallowed(s: string): (r: string)
    ensures |r| <= |s| && r == s[|s| - |r|..]
    ensures |r| == 0 || IsAllowed(r[0])
    decreases |s|
  {
    if |s| == 0 || IsAllowed(s[0]) then s else SkipDisallowed(s[1..])
  }

  /**
   * `to_luxcore_name`: letters, digits and `_` are kept, and every maximal
   * run of any other characters is replaced by exactly `"__"`.
   */
  function ToLuxcoreName(s: string): (r: string)
    ensures IsLuxcoreName(r)
    decreases |s|
  {
    if |s| == 0 then ""
    else if IsAllowed(s[0]) then [s[0]] + ToLuxcoreName(s[1..])
    else "__" + ToLuxcoreName(SkipDisallowed(s[1..]))
  }

  lemma UnfoldAllowed(s: string)
    requires |s| > 0 && IsAllowed(s[0])
    ensures ToLuxcoreName(s) == [s[0]] + ToLuxcoreName(s[1..])
  {
  }

  lemma UnfoldDisallowed(s: string)
    requires |s| > 0 && !IsAllowed(s[0])
    ensures ToLuxcoreName(s) == "__" + ToLuxcoreName(SkipDisallowed(s[1..]))
  {
  }

  lemma ConcatAssoc<T>(a: seq<T>, b: seq<T>, c: seq<T>)
    ensures a + (b + c) == (a + b) + c
  {
  }

  /** An allowed prefix is copied through unchanged. */
  lemma {:induction false} AllowedRunKept(a: string, b: string)
    requires IsLuxcoreName(a)
    ensures ToLuxcoreName(a + b) == a + ToLuxcoreName(b)
    decreases |a|
  {
    if |a| == 0 {
      assert a + b == b;
    } else {
      var s, t := a + b, a[1..];
      assert s[0] == a[0] && s[1..] == t + b;
      assert IsLuxcoreName(t) by {
        forall i | 0 <= i < |t|
          ensures IsAllowed(t[i])
        {
          assert t[i] == a[i + 1];
        }
      }
      UnfoldAllowed(s);
      AllowedRunKept(t, b);
      assert a == [a[0]] + t;
      ConcatAssoc([a[0]], t, ToLuxcoreName(b));
    }
  }

  /** A maximal disallowed run becomes exactly `"__"`. */
  lemma DisallowedRunCollapsed(d: string, b: string)
    requires |d| > 0 && forall i :: 0 <= i < |d| ==> !IsAllowed(d[i])
    requires |b| == 0 || IsAllowed(b[0])
    ensures ToLuxcoreName(d + b) == "__" + ToLuxcoreName(b)
  {
    var s := d + b;
    var t := d[1..];
    assert s[0] == d[0];
    assert s[1..] == t + b;
    assert forall i :: 0 <= i < |t| ==> !IsAllowed(t[i]) by {
      forall i | 0 <= i < |t|
        ensures !IsAllowed(t[i])
      {
        assert t[i] == d[i + 1];
      }
    }
    SkipRun(t, b);
    UnfoldDisallowed(s);
  }

  lemma {:induction false} SkipRun(d: string, b: string)
    requires forall i :: 0 <= i < |d| ==> !IsAllowed(d[i])
    requires |b| == 0 || IsAllowed(b[0])
    ensures SkipDisallowed(d + b) == b
    decreases |d|
  {
    if |d| > 0 {
      var s := d + b;
      assert s[0] == d[0] && s[1..] == d[1..] + b;
      SkipRun(d[1..], b);
    } else {
      assert d + b == b;
    }
  }

  lemma ConcatLuxcoreName(a: string, b: string)
    requires IsLuxcoreName(a) && IsLuxcoreName(b)
    ensures IsLuxcoreName(a + b)
  {
    forall i | 0 <= i < |a + b|
      ensures IsAllowed((a + b)[i])
    {
      if i < |a| {
        assert (a + b)[i] == a[i];
      } else {
        assert (a + b)[i] == b[i - |a|];
      }
    }
  }

  /** Strings already made of allowed characters are left unchanged. */
  lemma LuxcoreNameFixed(s: string)
    requires IsLuxcoreName(s)
    ensures ToLuxcoreName(s) == s
  {
    AllowedRunKept(s, "");
    assert s + "" == s;
  }

  /** Sanitising twice is sanitising once. */
  lemma ToLuxcoreNameIdempotent(s: string)
    ensures ToLuxcoreName(ToLuxcoreName(s)) == ToLuxcoreName(s)
  {
    LuxcoreNameFixed(ToLuxcoreName(s));
  }

  /** One allowed character of the scan: it is copied. */
  lemma ScanAllowed(s: string, i: nat)
    requires i < |s| && IsAllowed(s[i])
    ensures ToLuxcoreName(s[i..]) == [s[i]] + ToLuxcoreName(s[i + 1..])
  {
    assert s[i..][1..] == s[i + 1..];
    UnfoldAllowed(s[i..]);
  }

  /** A disallowed run from `i` up to `j` is replaced by `"__"`. */
  lemma ScanDisallowed(s: string, i: nat, j: nat)
    requires i < j <= |s|
    requires forall k :: i <= k < j ==> !IsAllowed(s[k])
    requires j == |s| || IsAllowed(s[j])
    ensures ToLuxcoreName(s[i..]) == "__" + ToLuxcoreName(s[j..])
  {
    var d, b := s[i..j], s[j..];
    assert s[i..] == d + b;
    assert forall k :: 0 <= k < |d| ==> !IsAllowed(d[k]) by {
      forall k | 0 <= k < |d|
        ensures !IsAllowed(d[k])
      {
        assert d[k] == s[i + k];
      }
    }
    DisallowedRunCollapsed(d, b);
  }

  /** The end of the disallowed run that starts at `i`. */
  method RunEnd(s: string, i: nat) returns (j: nat)
    requires i < |s| && !IsAllowed(s[i])
    ensures i < j <= |s| && (j == |s| || IsAllowed(s[j]))
    ensures forall k :: i <= k < j ==> !IsAllowed(s[k])
  {
    j := i + 1;
    while j < |s| && !IsAllowed(s[j])
      invariant i + 1 <= j <= |s|
      invariant forall k :: i <= k < j ==> !IsAllowed(s[k])
      decreases |s| - j
    {
      j := j + 1;
    }
  }

  /**
   * The left-to-right scan a regex substitution performs: copy allowed
   * characters, and on a disallowed one emit `"__"` and skip the whole run.
   */
  method SanitizeName(s: string) returns (r: string)
    ensures r == ToLuxcoreName(s)
  {
    r := "";
    var i := 0;
    while i < |s|
      invariant 0 <= i <= |s|
      invariant r + ToLuxcoreName(s[i..]) == ToLuxcoreName(s)
      decreases |s| - i
    {
      if IsAllowed(s[i]) {
        ScanAllowed(s, i);
        ConcatAssoc(r, [s[i]], ToLuxcoreName(s[i + 1..]));
        r := r + [s[i]];
        i := i + 1;
      } else {
        var j := RunEnd(s, i);
        ScanDisallowed(s, i, j);
        ConcatAssoc(r, "__", ToLuxcoreName(s[j..]));
        r := r + "__";
        i := j;
      }
    }
  }

  /** `get_pretty_name`: the title-cased type and an underscore before the name, when the datablock has a type. */
  function GetPrettyName(d: Datablock): (r: string)
    ensures EndsWith(r, d.name)
    ensures d.typ.None? ==> r == d.name
    ensures d.typ.Some? ==> |r| == |d.typ.value| + 1 + |d.name| && r[|d.typ.value|] == '_'
    ensures d.typ.Some? ==> forall i :: 0 <= i < |d.typ.value| ==> r[i] == TitleChar(d.typ.value, i)
  {
    match d.typ
    case None => d.name
    case Some(t) =>
      TitleChars(t);
      var r := Title(t) + "_" + d.name;
      assert r[|r| - |d.name|..] == d.name;
      r
  }

  /** `make_key`: the decimal address of the datablock. */
  function MakeKey(d: Datablock): (k: string)
    ensures IsCanonicalDigits(k) && ParseDigits(k) == d.pointer
  {
    ParseNatToString(d.pointer);
    NatToString(d.pointer)
  }

  /**
   * `get_luxcore_name`: the bare key in viewport renders (so renaming during
   * the render keeps references valid), the sanitised pretty name, `_` and
   * the key in final renders.
   */
  function GetLuxcoreName(d: Datablock, isViewportRender: bool): (r: string)
    ensures isViewportRender ==> r == MakeKey(d)
    ensures !isViewportRender ==> r == ToLuxcoreName(GetPrettyName(d)) + "_" + MakeKey(d)
  {
    var key := MakeKey(d);
    if !isViewportRender then ToLuxcoreName(GetPrettyName(d)) + "_" + key else key
  }

  /** The text after the last `_`, or the whole string when it has none. */
  function KeySuffix(s: string): string
    decreases |s|
  {
    if |s| == 0 || s[|s| - 1] == '_' then "" else KeySuffix(s[..|s| - 1]) + [s[|s| - 1]]
  }

  lemma {:induction false} KeySuffixAfterSeparator(prefix: string, key: string)
    requires AllDigits(key)
    ensures KeySuffix(prefix + "_" + key) == key
    decreases |key|
  {
    var s := prefix + "_" + key;
    if |key| == 0 {
      assert s[|s| - 1] == '_';
    } else {
      var k' := key[..|key| - 1];
      assert s[..|s| - 1] == prefix + "_" + k';
      KeySuffixAfterSeparator(prefix, k');
      assert key == k' + [key[|key| - 1]];
    }
  }

  lemma {:induction false} KeySuffixOfDigits(key: string)
    requires AllDigits(key)
    ensures KeySuffix(key) == key
    decreases |key|
  {
    if |key| > 0 {
      KeySuffixOfDigits(key[..|key| - 1]);
      assert key == key[..|key| - 1] + [key[|key| - 1]];
    }
  }

  /** Both kinds of export name end in the key, which can be read back from the name. */
  lemma LuxcoreNameKey(d: Datablock, isViewportRender: bool)
    ensures KeySuffix(GetLuxcoreName(d, isViewportRender)) == MakeKey(d)
    ensures ParseDigits(KeySuffix(GetLuxcoreName(d, isViewportRender))) == d.pointer
  {
    if isViewportRender {
      KeySuffixOfDigits(MakeKey(d));
    } else {
      KeySuffixAfterSeparator(ToLuxcoreName(GetPrettyName(d)), MakeKey(d));
    }
  }

  /** Export names use only allowed characters, so the renderer takes them as they are. */
  lemma LuxcoreNameIsValid(d: Datablock, isViewportRender: bool)
    ensures IsLuxcoreName(GetLuxcoreName(d, isViewportRender))
  {
    var key := MakeKey(d);
    assert IsLuxcoreName(key);
    if !isViewportRender {
      ConcatLuxcoreName(ToLuxcoreName(GetPrettyName(d)), "_");
      ConcatLuxcoreName(ToLuxcoreName(GetPrettyName(d)) + "_", key);
    }
  }

  /**
   * Renaming a datablock (or changing its type) leaves its viewport export
   * name as it was, so references made earlier in a viewport render stay
   * valid. A final-render name keeps its key suffix across the rename.
   */
  lemma ViewportNameStable(d: Datablock, n: string, t: Option<string>)
    ensures GetLuxcoreName(d.(name := n, typ := t), true) == GetLuxcoreName(d, true)
    ensures KeySuffix(GetLuxcoreName(d.(name := n, typ := t), false)) == KeySuffix(GetLuxcoreName(d, false))
  {
    LuxcoreNameKey(d, false);
    LuxcoreNameKey(d.(name := n, typ := t), false);
  }

  /** Datablocks at different addresses get different export names, in either mode. */
  lemma LuxcoreNamesDistinct(d1: Datablock, d2: Datablock, isViewportRender: bool)
    requires d1.pointer != d2.pointer
    ensures GetLuxcoreName(d1, isViewportRender) != GetLuxcoreName(d2, isViewportRender)
  {
    LuxcoreNameKey(d1, isViewportRender);
    LuxcoreNameKey(d2, isViewportRender);
  }

  /** `obj_from_key`: the first datablock whose key is `key`, or `None`. */
  function ObjFromKey(key: string, objects: seq<Datablock>): (r: Option<Datablock>)
    ensures r.Some? ==> exists i :: 0 <= i < |objects| && objects[i] == r.value && MakeKey(objects[i]) == key
                          && forall j :: 0 <= j < i ==> MakeKey(objects[j]) != key
    ensures r.None? <==> forall j :: 0 <= j < |objects| ==> MakeKey(objects[j]) != key
  {
    match FirstIndex(objects, (o: Datablock) => MakeKey(o) == key)
    case None => None
    case Some(i) => Some(objects[i])
  }

  /** With distinct addresses, looking up an object's own key finds that object. */
  lemma ObjFromOwnKey(objects: seq<Datablock>, i: nat)
    requires i < |objects|
    requires forall a, b :: 0 <= a < b < |objects| ==> objects[a].pointer != objects[b].pointer
    ensures ObjFromKey(MakeKey(objects[i]), objects) == Some(objects[i])
  {
    var key := MakeKey(objects[i]);
    var r := ObjFromKey(key, objects);
    var k :| 0 <= k < |objects| && objects[k] == r.value && MakeKey(objects[k]) == key
              && forall j :: 0 <= j < k ==> MakeKey(objects[j]) != key;
    if k < i {
      assert false;
    }
  }
}
