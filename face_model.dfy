/**
 * The storage helpers of the API (api/models/faceModel.js): the extraction of
 * the base64 payload from a screenshot data URL, and the file operations on
 * the flat storage directory, modelled as a map from file names to contents.
 */
module FaceModel {
  import opened Wrappers
  import opened JsValues

  // ---------------------------------------------------------------------------
  // String.prototype.split on a non-empty separator, and the payload of a data URL
  // ---------------------------------------------------------------------------

  /** The marker that separates a data URL's header from its base64 payload. */
  const Marker: string := ";base64,"

  /** True when `sep` occurs somewhere in `s`. */
  predicate Contains(s: string, sep: string)
    requires |sep| > 0
    decreases |s|
  {
    |sep| <= |s| && (s[..|sep|] == sep || Contains(s[1..], sep))
  }

  /**
   * True when no proper prefix of `sep` is also a suffix of it, so that two
   * occurrences of `sep` in a string can never overlap.
   */
  ghost predicate Borderless(sep: string)
  {
    forall k :: 0 < k < |sep| ==> sep[..k] != sep[|sep| - k..]
  }

  /**
   * `s.split(sep)` as JavaScript computes it: the string is scanned from the
   * left, every occurrence of `sep` found ends one part, and the scan resumes
   * right after it. There is always at least one part.
   */
  function Split(s: string, sep: string): (parts: seq<string>)
    requires |sep| > 0
    ensures |parts| >= 1
    decreases |s|
  {
    if |s| < |sep| then [s]
    else if s[..|sep|] == sep then [""] + Split(s[|sep|..], sep)
    else
      var rest := Split(s[1..], sep);
      [[s[0]] + rest[0]] + rest[1..]
  }

  /** `parts.join(sep)`: the inverse of `Split`. */
  function Join(parts: seq<string>, sep: string): string
    requires |parts| >= 1
    decreases |parts|
  {
    if |parts| == 1 then parts[0] else parts[0] + sep + Join(parts[1..], sep)
  }

  /**
   * `image.split(';base64,').pop()`: what `saveScreenshot` hands to the file
   * write as base64 text.
   */
  function Payload(image: string): (p: string)
    ensures IsSuffix(p, image)
    ensures !Contains(p, Marker)
    ensures !Contains(image, Marker) ==> p == image
  {
    var parts := Split(image, Marker);
    LastPartIsSuffix(image, Marker);
    PartsAreFree(image, Marker);
    NoSeparatorOnePart(image, Marker);
    Last(parts)
  }

  /** The parts of `s` when it does not start with `sep`: the first character joins the first part. */
  lemma SplitShift(s: string, sep: string)
    requires |sep| > 0 && |sep| <= |s| && s[..|sep|] != sep
    ensures var parts, rest := Split(s, sep), Split(s[1..], sep);
      && |parts| == |rest|
      && parts[0] == [s[0]] + rest[0]
      && parts[1..] == rest[1..]
  {
  }

  /** The parts of `s` when it starts with `sep`: an empty part, then the parts of the rest. */
  lemma SplitAtSeparator(s: string, sep: string)
    requires |sep| > 0 && |sep| <= |s| && s[..|sep|] == sep
    ensures Split(s, sep) == [""] + Split(s[|sep|..], sep)
  {
  }

  /** Joining an empty first part before `rest` puts a separator before the join of `rest`. */
  lemma JoinEmptyFirst(parts: seq<string>, rest: seq<string>, sep: string)
    requires |rest| >= 1 && parts == [""] + rest
    ensures Join(parts, sep) == sep + Join(rest, sep)
  {
    assert parts[1..] == rest;
  }

  /** Joining parts whose first part gained a character `c` in front adds `c` in front. */
  lemma JoinLongerFirst(c: char, parts: seq<string>, rest: seq<string>, sep: string)
    requires |rest| >= 1 && |parts| == |rest|
    requires parts[0] == [c] + rest[0] && parts[1..] == rest[1..]
    ensures Join(parts, sep) == [c] + Join(rest, sep)
  {
    if |rest| > 1 {
      var tail := Join(rest[1..], sep);
      calc {
        Join(parts, sep);
        ([c] + rest[0]) + sep + tail;
        { AppendAssoc([c], rest[0], sep); AppendAssoc([c], rest[0] + sep, tail); }
        [c] + (rest[0] + sep + tail);
      }
    }
  }

  lemma AppendAssoc(a: string, b: string, c: string)
    ensures (a + b) + c == a + (b + c)
  {
  }

  lemma {:induction false} SplitJoin(s: string, sep: string)
    requires |sep| > 0
    ensures Join(Split(s, sep), sep) == s
    decreases |s|
  {
    if |s| < |sep| {
    } else if s[..|sep|] == sep {
      var t := s[|sep|..];
      SplitAtSeparator(s, sep);
      SplitJoin(t, sep);
      JoinEmptyFirst(Split(s, sep), Split(t, sep), sep);
      assert s == sep + t;
    } else {
      var t := s[1..];
      SplitShift(s, sep);
      SplitJoin(t, sep);
      JoinLongerFirst(s[0], Split(s, sep), Split(t, sep), sep);
      assert s == [s[0]] + t;
    }
  }

  /** The first part of a split is a prefix of the input. */
  lemma {:induction false} FirstPartIsPrefix(s: string, sep: string)
    requires |sep| > 0
    ensures Split(s, sep)[0] <= s
    decreases |s|
  {
    if |s| < |sep| {
    } else if s[..|sep|] == sep {
    } else {
      FirstPartIsPrefix(s[1..], sep);
      var r0 := Split(s[1..], sep)[0];
      assert [s[0]] + r0 <= [s[0]] + s[1..];
      assert [s[0]] + s[1..] == s;
    }
  }

  /** No part of a split contains the separator. */
  lemma {:induction false} PartsAreFree(s: string, sep: string)
    requires |sep| > 0
    ensures forall i :: 0 <= i < |Split(s, sep)| ==> !Contains(Split(s, sep)[i], sep)
    decreases |s|
  {
    var parts := Split(s, sep);
    if |s| < |sep| {
    } else if s[..|sep|] == sep {
      PartsAreFree(s[|sep|..], sep);
      assert !Contains("", sep);
      assert forall i :: 1 <= i < |parts| ==> parts[i] == Split(s[|sep|..], sep)[i - 1];
    } else {
      var rest := Split(s[1..], sep);
      PartsAreFree(s[1..], sep);
      FirstPartIsPrefix(s[1..], sep);
      var first := [s[0]] + rest[0];
      assert first <= s by {
        assert [s[0]] + s[1..] == s;
      }
      assert !Contains(first, sep) by {
        if |sep| <= |first| {
          assert first[..|sep|] == s[..|sep|];
          assert first[1..] == rest[0];
        }
      }
      assert forall i :: 1 <= i < |parts| ==> parts[i] == rest[i];
    }
  }

  /** `p` ends `s`. */
  predicate IsSuffix(p: string, s: string)
  {
    |p| <= |s| && s[|s| - |p|..] == p
  }

  /** A suffix of a suffix of `s` is a suffix of `s`. */
  lemma SuffixOfDrop(p: string, s: string, k: nat)
    requires k <= |s| && IsSuffix(p, s[k..])
    ensures IsSuffix(p, s)
  {
    assert s[|s| - |p|..] == s[k..][|s| - k - |p|..];
  }

  /** The last part of a split. */
  function Last(parts: seq<string>): string
    requires |parts| >= 1
  {
    parts[|parts| - 1]
  }

  /** Parts that agree after the first have the same last part. */
  lemma LastOfSameTail(parts: seq<string>, rest: seq<string>)
    requires |parts| == |rest| >= 2 && parts[1..] == rest[1..]
    ensures Last(parts) == Last(rest)
  {
    assert Last(parts) == parts[1..][|parts| - 2];
  }

  /** The last part of a split is a suffix of the input. */
  lemma {:induction false} LastPartIsSuffix(s: string, sep: string)
    requires |sep| > 0
    ensures IsSuffix(Last(Split(s, sep)), s)
    decreases |s|
  {
    if |s| < |sep| {
    } else if s[..|sep|] == sep {
      var t := s[|sep|..];
      SplitAtSeparator(s, sep);
      LastPartIsSuffix(t, sep);
      assert Last(Split(s, sep)) == Last(Split(t, sep));
      SuffixOfDrop(Last(Split(s, sep)), s, |sep|);
    } else {
      var t := s[1..];
      var parts, rest := Split(s, sep), Split(t, sep);
      SplitShift(s, sep);
      if |rest| == 1 {
        SplitJoin(t, sep);
        assert Last(parts) == [s[0]] + t;
        assert s == [s[0]] + t;
      } else {
        LastPartIsSuffix(t, sep);
        LastOfSameTail(parts, rest);
        SuffixOfDrop(Last(parts), s, 1);
      }
    }
  }

  /** Without an occurrence of the separator the split is the input alone. */
  lemma {:induction false} NoSeparatorOnePart(s: string, sep: string)
    requires |sep| > 0
    ensures !Contains(s, sep) ==> Split(s, sep) == [s]
    decreases |s|
  {
    if |sep| <= |s| && !Contains(s, sep) {
      NoSeparatorOnePart(s[1..], sep);
      assert s == [s[0]] + s[1..];
    }
  }

  /** `sep` occurs in any string that has it between two parts. */
  lemma {:induction false} ContainsInside(x: string, sep: string, p: string)
    requires |sep| > 0
    ensures Contains(x + sep + p, sep)
    decreases |x|
  {
    var s := x + sep + p;
    if |x| > 0 {
      ContainsInside(x[1..], sep, p);
      assert s[1..] == x[1..] + sep + p;
    } else {
      assert s[..|sep|] == sep;
    }
  }

  /** An occurrence of the separator makes the split have at least two parts. */
  lemma {:induction false} SeparatorSplits(s: string, sep: string)
    requires |sep| > 0
    requires Contains(s, sep)
    ensures |Split(s, sep)| >= 2
    decreases |s|
  {
    if s[..|sep|] != sep {
      SeparatorSplits(s[1..], sep);
    }
  }

  /**
   * With a border-free separator, the last part of `x + sep + p` is `p`
   * whenever `p` itself does not contain the separator.
   */
  lemma {:induction false} LastPartAfterLastSeparator(x: string, sep: string, p: string)
    requires |sep| > 0 && Borderless(sep)
    requires !Contains(p, sep)
    ensures var parts := Split(x + sep + p, sep); parts[|parts| - 1] == p
    decreases |x|
  {
    var s := x + sep + p;
    assert s[|x|..|x| + |sep|] == sep;
    if s[..|sep|] == sep {
      if |x| == 0 {
        assert s[|sep|..] == p;
        NoSeparatorOnePart(p, sep);
      } else if |x| < |sep| {
        OverlapIsBorder(x, sep, p);
        assert false;
      } else {
        assert x[..|sep|] == sep;
        assert s[|sep|..] == x[|sep|..] + sep + p;
        LastPartAfterLastSeparator(x[|sep|..], sep, p);
      }
    } else {
      assert |x| > 0;
      assert s[1..] == x[1..] + sep + p;
      LastPartAfterLastSeparator(x[1..], sep, p);
      ContainsInside(x[1..], sep, p);
      SeparatorSplits(s[1..], sep);
    }
  }

  /** Two occurrences of `sep` that overlap make a border of `sep`. */
  lemma OverlapIsBorder(x: string, sep: string, p: string)
    requires 0 < |x| < |sep|
    requires (x + sep + p)[..|sep|] == sep
    ensures sep[..|sep| - |x|] == sep[|sep| - (|sep| - |x|)..]
  {
    var s := x + sep + p;
    assert s[|x|..|x| + |sep|] == sep;
    assert sep[..|sep| - |x|] == s[|x|..|sep|];
    assert sep[|x|..] == s[|x|..|sep|];
  }

  lemma MarkerIsBorderless()
    ensures Borderless(Marker)
  {
    // No character after the first one is a ';', so no proper suffix starts like the marker.
    forall k | 0 < k < |Marker|
      ensures Marker[..k] != Marker[|Marker| - k..]
    {
      assert Marker[..k][0] == ';';
      assert Marker[|Marker| - k..][0] == Marker[|Marker| - k] != ';';
    }
  }

  /**
   * The persisted payload of `prefix + ";base64," + p` is exactly `p` when `p`
   * has no marker of its own: the segment after the last marker.
   */
  lemma PayloadAfterMarker(prefix: string, p: string)
    requires !Contains(p, Marker)
    ensures Payload(prefix + Marker + p) == p
  {
    MarkerIsBorderless();
    LastPartAfterLastSeparator(prefix, Marker, p);
  }

  // ---------------------------------------------------------------------------
  // The storage directory and its helpers
  // ---------------------------------------------------------------------------

  /**
   * What a file holds: a record written as JSON text (kept as the value it
   * encodes), or a PNG image written from base64 text (kept as that text).
   */
  datatype Content = Json(value: JsValue) | Png(base64: string)

  /** The flat storage directory: file name to content. */
  type Dir = map<string, Content>

  /** Why reading a record failed: no such file, or its text is not JSON. */
  datatype ReadError = NoSuchFile | NotJson

  /** The face-data directory together with the six helpers that touch it. */
  class FaceStore {
    var files: Dir

    /** The directory as the server finds it after its startup wipe. */
    constructor ()
      ensures files == map[]
    {
      files := map[];
    }

    /** `saveFaceData`: writes the record as JSON, creating or replacing the file. */
    method SaveFaceData(path: string, faceData: JsValue)
      modifies this
      ensures files == old(files)[path := Json(faceData)]
    {
      files := files[path := Json(faceData)];
    }

    /**
     * `saveScreenshot`: writes the payload of the data URL. A value that is
     * not a string has no `split`, so the call throws before writing anything.
     */
    method SaveScreenshot(path: string, image: JsValue) returns (threw: bool)
      modifies this
      ensures threw <==> !image.Str?
      ensures threw ==> files == old(files)
      ensures !threw ==> files == old(files)[path := Png(Payload(image.s))]
    {
      if image.Str? {
        files := files[path := Png(Payload(image.s))];
        threw := false;
      } else {
        threw := true;
      }
    }

    /** `getAllFaceData`: the names in the directory, unfiltered and unordered. */
    method GetAllFaceData() returns (names: set<string>)
      ensures forall name :: name in names <==> name in files
    {
      names := files.Keys;
    }

    /**
     * `getFaceData`: reads one file and parses it as JSON. An image entry is
     * taken not to parse, although the bytes a base64 text decodes to could
     * happen to be JSON; the handlers only read `.json` names.
     */
    method GetFaceData(path: string) returns (r: Result<JsValue, ReadError>)
      ensures r.Failure? <==> path !in files || files[path].Png?
      ensures path !in files ==> r == Failure(NoSuchFile)
      ensures path in files && files[path].Png? ==> r == Failure(NotJson)
      ensures r.Success? ==> files[path] == Json(r.value)
    {
      if path !in files {
        r := Failure(NoSuchFile);
      } else {
        match files[path]
        case Json(v) => r := Success(v);
        case Png(_) => r := Failure(NotJson);
      }
    }

    /** `deleteFaceData`: unlinks one file; `ok` is false for an absent name. */
    method DeleteFaceData(path: string) returns (ok: bool)
      modifies this
      ensures ok <==> path in old(files)
      ensures files == old(files) - {path}
    {
      ok := path in files;
      files := files - {path};
    }

    /** `deleteScreenshot`: unlinks one file; `ok` is false for an absent name. */
    method DeleteScreenshot(imagePath: string) returns (ok: bool)
      modifies this
      ensures ok <==> imagePath in old(files)
      ensures files == old(files) - {imagePath}
    {
      ok := imagePath in files;
      files := files - {imagePath};
    }
  }
}
