/** Case-insensitive lookup of a CSV column among the header fields. */
module Headers {
  import opened ChatTypes

  /** ASCII lower-casing of one character. */
  function LowerChar(c: char): (d: char)
    ensures 'A' <= c <= 'Z' ==> 'a' <= d <= 'z'
    ensures !('A' <= c <= 'Z') ==> d == c
  {
    if 'A' <= c <= 'Z' then (c as int - 'A' as int + 'a' as int) as char else c
  }

  /** `toLowerCase`, on the ASCII letters. */
  function Lower(s: string): string
  {
    if s == [] then [] else [LowerChar(s[0])] + Lower(s[1..])
  }

  /** The characters `trim` removes: ECMAScript WhiteSpace (tab, vertical tab,
      form feed, the byte-order mark and the Unicode space separators) and
      LineTerminator (line feed, carriage return, U+2028, U+2029). */
  predicate IsWhiteSpace(c: char)
  {
    || c == '\t' || c == '\n' || c == '\U{000B}' || c == '\U{000C}' || c == '\r'
    || c == ' ' || c == '\U{00A0}' || c == '\U{1680}'
    || ('\U{2000}' <= c <= '\U{200A}')
    || c == '\U{2028}' || c == '\U{2029}' || c == '\U{202F}' || c == '\U{205F}'
    || c == '\U{3000}' || c == '\U{FEFF}'
  }

  function TrimStart(s: string): string
  {
    if s != [] && IsWhiteSpace(s[0]) then TrimStart(s[1..]) else s
  }

  function TrimEnd(s: string): string
  {
    if s != [] && IsWhiteSpace(s[|s| - 1]) then TrimEnd(s[..|s| - 1]) else s
  }

  /** `trim`: `s` with its leading and trailing white space removed. */
  function Trim(s: string): string
  {
    TrimEnd(TrimStart(s))
  }

  lemma {:induction false} TrimStartSpec(s: string)
    ensures var r := TrimStart(s);
      && |r| <= |s| && r == s[|s| - |r|..]
      && (forall k :: 0 <= k < |s| - |r| ==> IsWhiteSpace(s[k]))
      && (r != [] ==> !IsWhiteSpace(r[0]))
  {
    if s != [] && IsWhiteSpace(s[0]) {
      TrimStartSpec(s[1..]);
      var r := TrimStart(s);
      forall k | 0 <= k < |s| - |r| ensures IsWhiteSpace(s[k]) {
        if k > 0 { assert s[k] == s[1..][k - 1]; }
      }
    }
  }

  lemma {:induction false} TrimEndSpec(s: string)
    ensures var r := TrimEnd(s);
      && |r| <= |s| && r == s[..|r|]
      && (forall k :: |r| <= k < |s| ==> IsWhiteSpace(s[k]))
      && (r != [] ==> !IsWhiteSpace(r[|r| - 1]))
  {
    if s != [] && IsWhiteSpace(s[|s| - 1]) {
      TrimEndSpec(s[..|s| - 1]);
    }
  }

  /** `Trim` removes a run of white space from each end and leaves a result
      that neither starts nor ends with white space. */
  lemma TrimSpec(s: string)
    ensures var r := Trim(s);
      && |r| <= |s|
      && (r != [] ==> !IsWhiteSpace(r[0]) && !IsWhiteSpace(r[|r| - 1]))
      && (exists i {:trigger s[i..]} ::
            && 0 <= i <= |s| - |r| && r == s[i..][..|r|]
            && (forall k :: 0 <= k < i ==> IsWhiteSpace(s[k]))
            && (forall k :: i + |r| <= k < |s| ==> IsWhiteSpace(s[k])))
  {
    var t := TrimStart(s);
    TrimStartSpec(s);
    TrimEndSpec(t);
    var r := TrimEnd(t);
    var i := |s| - |t|;
    assert t == s[i..];
    forall k | i + |r| <= k < |s| ensures IsWhiteSpace(s[k]) {
      assert s[k] == t[k - i];
    }
  }

  /** `indexOf`: the first position of `x` in `xs`, or -1. */
  function IndexOf<T(==)>(xs: seq<T>, x: T): (r: int)
    ensures -1 <= r < |xs|
    ensures r == -1 <==> x !in xs
    ensures 0 <= r ==> xs[r] == x && x !in xs[..r]
  {
    if xs == [] then -1
    else if xs[0] == x then 0
    else
      var k := IndexOf(xs[1..], x);
      assert xs[1..][..if k < 0 then 0 else k] == xs[1..if k < 0 then 1 else k + 1];
      if k == -1 then -1 else k + 1
  }

  /** The position of the first entry of `normals` equal to some key, trying
      the keys in order. */
  function FirstHit<T(==)>(normals: seq<T>, keys: seq<T>): (r: Option<nat>)
    ensures r.Some? ==> r.value < |normals|
    decreases |keys|
  {
    if keys == [] then None
    else
      var k := IndexOf(normals, keys[0]);
      if k >= 0 then Some(k) else FirstHit(normals, keys[1..])
  }

  /** Entry `fi` equals key `ci`, no earlier key occurs at all, and no earlier entry equals key `ci`. */
  ghost predicate FirstPair<T>(normals: seq<T>, keys: seq<T>, ci: int, fi: int)
  {
    && 0 <= ci < |keys| && 0 <= fi < |normals|
    && normals[fi] == keys[ci]
    && (forall cj :: 0 <= cj < ci ==> keys[cj] !in normals)
    && keys[ci] !in normals[..fi]
  }

  lemma {:induction false} FirstHitSpec<T>(normals: seq<T>, keys: seq<T>)
    ensures FirstHit(normals, keys).None? <==> forall ci :: 0 <= ci < |keys| ==> keys[ci] !in normals
    ensures FirstHit(normals, keys).Some? ==>
      exists ci :: FirstPair(normals, keys, ci, FirstHit(normals, keys).value)
    decreases |keys|
  {
    if keys != [] {
      var k := IndexOf(normals, keys[0]);
      if k >= 0 {
        assert FirstPair(normals, keys, 0, k);
      } else {
        var rest := keys[1..];
        FirstHitSpec(normals, rest);
        if FirstHit(normals, rest).Some? {
          var ci :| FirstPair(normals, rest, ci, FirstHit(normals, rest).value);
          assert keys[ci + 1] == rest[ci];
          assert FirstPair(normals, keys, ci + 1, FirstHit(normals, rest).value) by {
            forall cj | 0 <= cj < ci + 1 ensures keys[cj] !in normals {
              if cj > 0 { assert keys[cj] == rest[cj - 1]; }
            }
          }
        } else {
          forall ci | 0 <= ci < |keys| ensures keys[ci] !in normals {
            if ci > 0 { assert keys[ci] == rest[ci - 1]; }
          }
        }
      }
    }
  }

  /** The form a header field is compared in: lower-cased, then trimmed. */
  function Normal(field: string): string
  {
    Trim(Lower(field))
  }

  /** The normal forms of all fields, as `fields.map(...)` builds them. */
  function Normals(fields: seq<string>): (ns: seq<string>)
    ensures |ns| == |fields|
    ensures forall i :: 0 <= i < |fields| ==> ns[i] == Normal(fields[i])
  {
    seq(|fields|, i requires 0 <= i < |fields| => Normal(fields[i]))
  }

  /** The lower-cased candidates. */
  function Lowers(names: seq<string>): (ks: seq<string>)
    ensures |ks| == |names|
    ensures forall i :: 0 <= i < |names| ==> ks[i] == Lower(names[i])
  {
    seq(|names|, i requires 0 <= i < |names| => Lower(names[i]))
  }

  /** Which field `findHeader` returns: the candidates are tried in order,
      and the first field whose normal form equals the lower-cased candidate
      is returned in its original spelling. */
  function HeaderFor(fields: seq<string>, names: seq<string>): Option<string>
  {
    var hit := FirstHit(Normals(fields), Lowers(names));
    if hit.Some? then Some(fields[hit.value]) else None
  }

  /** A field matches a candidate when its normal form is the lower-cased candidate. */
  predicate Matches(field: string, name: string)
  {
    Normal(field) == Lower(name)
  }

  /** `HeaderFor` finds a field exactly when some candidate matches some
      field; what it finds is the first field matching the first candidate
      that matches any field, in its original spelling. */
  lemma HeaderForFirstMatch(fields: seq<string>, names: seq<string>)
    ensures HeaderFor(fields, names).None? <==>
      forall ci, fi :: 0 <= ci < |names| && 0 <= fi < |fields| ==> !Matches(fields[fi], names[ci])
    ensures HeaderFor(fields, names).Some? ==>
      exists ci, fi ::
        && 0 <= ci < |names| && 0 <= fi < |fields|
        && HeaderFor(fields, names).value == fields[fi]
        && Matches(fields[fi], names[ci])
        && (forall cj, fj :: 0 <= cj < ci && 0 <= fj < |fields| ==> !Matches(fields[fj], names[cj]))
        && (forall fj :: 0 <= fj < fi ==> !Matches(fields[fj], names[ci]))
  {
    var ns, ks := Normals(fields), Lowers(names);
    FirstHitSpec(ns, ks);
    if FirstHit(ns, ks).Some? {
      var fi := FirstHit(ns, ks).value;
      var ci :| FirstPair(ns, ks, ci, fi);
      forall cj, fj | 0 <= cj < ci && 0 <= fj < |fields| ensures !Matches(fields[fj], names[cj]) {
        assert ns[fj] in ns;
      }
      forall fj | 0 <= fj < fi ensures !Matches(fields[fj], names[ci]) {
        assert ns[fj] in ns[..fi];
      }
    } else {
      forall ci, fi | 0 <= ci < |names| && 0 <= fi < |fields| ensures !Matches(fields[fi], names[ci]) {
        assert ns[fi] in ns;
      }
    }
  }

  /** `findHeader`: a loop over the candidates that returns at the first hit. */
  method FindHeader(fields: seq<string>, possibleNames: seq<string>) returns (r: Option<string>)
    ensures r == HeaderFor(fields, possibleNames)
  {
    var lowerCaseFields := Normals(fields);
    ghost var keys := Lowers(possibleNames);
    var n := 0;
    while n < |possibleNames|
      invariant 0 <= n <= |possibleNames|
      invariant FirstHit(lowerCaseFields, keys) == FirstHit(lowerCaseFields, keys[n..])
    {
      var lowerCaseName := Lower(possibleNames[n]);
      var index := IndexOf(lowerCaseFields, lowerCaseName);
      if index != -1 {
        return Some(fields[index]);
      }
      assert keys[n..][1..] == keys[n + 1..];
      n := n + 1;
    }
    return None;
  }
}
