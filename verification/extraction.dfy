/** Locating the JSON object inside the language model's reply: the reply is
    stripped, then cut from the first `{` through the last `}`; without both
    braces the stripped reply is handed to the JSON parser as it is. */
module Extraction {
  import opened PyText

  /** `i` is the position of the first `c` in `s`. */
  ghost predicate FirstAt(s: string, c: char, i: int)
  {
    0 <= i < |s| && s[i] == c && forall k :: 0 <= k < i ==> s[k] != c
  }

  /** `j` is the position of the last `c` in `s`. */
  ghost predicate LastAt(s: string, c: char, j: int)
  {
    0 <= j < |s| && s[j] == c && forall k :: j < k < |s| ==> s[k] != c
  }

  /** The cut made on the stripped reply `t`. */
  function BraceSlice(t: string): (r: string)
    ensures '{' !in t || '}' !in t ==> r == t
    ensures |r| <= |t|
  {
    if '{' in t && '}' in t then
      Slice(t, Find(t, '{'), RFind(t, '}') + 1)
    else
      t
  }

  /** The text the script passes to `json.loads`. */
  function ExtractJson(reply: string): (r: string)
    ensures '{' !in Strip(reply) || '}' !in Strip(reply) ==> r == Strip(reply)
    ensures |r| <= |Strip(reply)|
  {
    BraceSlice(Strip(reply))
  }

  lemma FirstUnique(s: string, c: char, i: int, i': int)
    requires FirstAt(s, c, i) && FirstAt(s, c, i')
    ensures i == i'
  {
  }

  lemma LastUnique(s: string, c: char, j: int, j': int)
    requires LastAt(s, c, j) && LastAt(s, c, j')
    ensures j == j'
  {
  }

  /** With both braces present the cut is the slice from the first `{`
      through the last `}`, which Python's slicing makes empty when the last
      `}` comes before the first `{`. */
  lemma BraceSliceAt(t: string, i: int, j: int)
    requires FirstAt(t, '{', i) && LastAt(t, '}', j)
    ensures BraceSlice(t) == if i < j then t[i..j + 1] else []
  {
    assert '{' in t && '}' in t;
    FirstUnique(t, '{', i, Find(t, '{'));
    LastUnique(t, '}', j, RFind(t, '}'));
  }

  /** Whatever the text, the cut is one contiguous piece of it. */
  lemma BraceSliceIsSubstring(t: string)
    ensures exists a, b :: 0 <= a <= b <= |t| && BraceSlice(t) == t[a..b]
  {
    if '{' in t && '}' in t {
      var i := Find(t, '{');
      var j := RFind(t, '}');
      BraceSliceAt(t, i, j);
      if j < i {
        assert BraceSlice(t) == t[0..0];
      }
    } else {
      assert t == t[0..|t|];
    }
  }

  /** When the first `{` comes before the last `}`, the cut opens with `{`
      and closes with `}`. */
  lemma BraceSliceDelimited(t: string, i: int, j: int)
    requires FirstAt(t, '{', i) && LastAt(t, '}', j) && i < j
    ensures |BraceSlice(t)| >= 2
    ensures BraceSlice(t)[0] == '{' && BraceSlice(t)[|BraceSlice(t)| - 1] == '}'
  {
    BraceSliceAt(t, i, j);
  }

  /** Around the cut, what is cut away in front holds no `{` and what is cut
      away behind holds no `}`. */
  lemma BraceSliceSplits(t: string, i: int, j: int)
    requires FirstAt(t, '{', i) && LastAt(t, '}', j) && i < j
    ensures t == t[..i] + BraceSlice(t) + t[j + 1..]
    ensures '{' !in t[..i] && '}' !in t[j + 1..]
  {
    BraceSliceAt(t, i, j);
    SplitAround(t, i, j);
    AbsentBefore(t, '{', i);
    AbsentAfter(t, '}', j);
  }

  lemma SplitAround(t: string, i: int, j: int)
    requires 0 <= i <= j < |t|
    ensures t == t[..i] + t[i..j + 1] + t[j + 1..]
  {
  }

  lemma AbsentBefore(t: string, c: char, i: int)
    requires 0 <= i <= |t| && forall k :: 0 <= k < i ==> t[k] != c
    ensures c !in t[..i]
  {
    var prefix := t[..i];
    forall k | 0 <= k < |prefix| ensures prefix[k] != c {
      assert prefix[k] == t[k];
    }
  }

  lemma AbsentAfter(t: string, c: char, j: int)
    requires 0 <= j < |t| && forall k :: j < k < |t| ==> t[k] != c
    ensures c !in t[j + 1..]
  {
    var suffix := t[j + 1..];
    forall k | 0 <= k < |suffix| ensures suffix[k] != c {
      assert suffix[k] == t[j + 1 + k];
    }
  }

  /** The cut is empty exactly when the text is empty or its last `}` stands
      before its first `{`. */
  lemma BraceSliceEmptyIff(t: string)
    ensures BraceSlice(t) == [] <==>
      (t == [] || exists i, j :: FirstAt(t, '{', i) && LastAt(t, '}', j) && j < i)
  {
    if '{' in t && '}' in t {
      var i := Find(t, '{');
      var j := RFind(t, '}');
      BraceSliceAt(t, i, j);
      assert FirstAt(t, '{', i) && LastAt(t, '}', j);
      if i < j {
        assert BraceSlice(t) != [] by {
          assert |t[i..j + 1]| > 0;
        }
        forall i', j' | FirstAt(t, '{', i') && LastAt(t, '}', j') ensures i' == i && j' == j {
          FirstUnique(t, '{', i, i');
          LastUnique(t, '}', j, j');
        }
      }
    }
  }

  /** A text that is nothing but an object, braces at both ends, is cut to
      itself. */
  lemma BraceSliceWhole(t: string)
    requires |t| >= 2 && t[0] == '{' && t[|t| - 1] == '}'
    ensures BraceSlice(t) == t
  {
    BraceSliceAt(t, 0, |t| - 1);
    assert t[0..|t|] == t;
  }

  /** A reply that is nothing but an object's text reaches the parser
      unchanged. */
  lemma ExtractWholeObject(s: string)
    requires |s| >= 2 && s[0] == '{' && s[|s| - 1] == '}'
    ensures ExtractJson(s) == s
  {
    StripKeepsTrimmed(s);
    BraceSliceWhole(s);
  }

  /** Extraction is idempotent: running it on its own output changes nothing. */
  lemma ExtractIdempotent(reply: string)
    ensures ExtractJson(ExtractJson(reply)) == ExtractJson(reply)
  {
    var t := Strip(reply);
    var r := BraceSlice(t);
    if '{' in t && '}' in t {
      var i := Find(t, '{');
      var j := RFind(t, '}');
      if i < j {
        BraceSliceDelimited(t, i, j);
        ExtractWholeObject(r);
      } else {
        BraceSliceAt(t, i, j);
        StripKeepsTrimmed(r);
      }
    } else {
      StripKeepsTrimmed(t);
    }
  }

  /** The reply may wrap the object in prose: whatever surrounds an object,
      so long as nothing before it contains `{` and nothing after it
      contains `}`, the object alone is extracted. */
  lemma ExtractFromProse(before: string, obj: string, after: string)
    requires |obj| >= 2 && obj[0] == '{' && obj[|obj| - 1] == '}'
    requires '{' !in before && '}' !in after
    ensures ExtractJson(before + obj + after) == obj
  {
    var s := before + obj + after;
    StripAroundObject(before, obj, after);
    var a, b := StripStart(s), StripEnd(s);
    ProseCut(s, a, b, before, obj, after);
    BraceSliceAt(s[a..b], |before| - a, |before| + |obj| - 1 - a);
  }

  /** Stripping `before + obj + after` keeps all of `obj`, which starts and
      ends with non-whitespace. */
  lemma StripAroundObject(before: string, obj: string, after: string)
    requires |obj| >= 2 && obj[0] == '{' && obj[|obj| - 1] == '}'
    ensures var s := before + obj + after;
      StripStart(s) <= |before| && |before| + |obj| <= StripEnd(s)
  {
    var s := before + obj + after;
    assert s[|before|] == '{' && s[|before| + |obj| - 1] == '}';
    StripKeepsCore(s, |before|, |before| + |obj|);
  }

  /** Inside any window of `before + obj + after` that covers `obj`, the
      object's braces are the first `{` and the last `}`. */
  lemma ProseCut(s: string, a: nat, b: nat, before: string, obj: string, after: string)
    requires s == before + obj + after
    requires |obj| >= 2 && obj[0] == '{' && obj[|obj| - 1] == '}'
    requires '{' !in before && '}' !in after
    requires a <= |before| && |before| + |obj| <= b <= |s|
    ensures FirstAt(s[a..b], '{', |before| - a)
    ensures LastAt(s[a..b], '}', |before| + |obj| - 1 - a)
    ensures s[a..b][|before| - a..|before| + |obj| - a] == obj
  {
    var t := s[a..b];
    forall k | 0 <= k < |obj| ensures t[|before| - a + k] == obj[k] {
      assert t[|before| - a + k] == s[|before| + k];
    }
    forall k | 0 <= k < |before| - a ensures t[k] != '{' {
      assert t[k] == before[a + k];
    }
    forall k | |before| + |obj| - 1 - a < k < |t| ensures t[k] != '}' {
      assert t[k] == after[a + k - |before| - |obj|];
    }
  }
}
