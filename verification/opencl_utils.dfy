/**
 * Host utilities for the OpenCL runtime: case folding of C strings, the
 * search for a platform whose name contains a hint, and construction of the
 * path of the FPGA bitstream.
 *
 * Memory holding C strings is modelled as `seq<char>` / `array<char>`; a C
 * string is the prefix of memory before the first NUL. Where the host code
 * reads past the characters it wrote, the memory that follows is a parameter.
 */
module OpenclUtils {
  import opened Wrappers

  const NUL: char := '\0'

  /** The characters of a C string contain no terminator. */
  predicate NoNul(s: string)
  {
    NUL !in s
  }

  // ---------------------------------------------------------------------------
  // tolower / tolowercase
  // ---------------------------------------------------------------------------

  /** `tolower` in the "C" locale: only 'A'..'Z' change. */
  function ToLowerChar(c: char): (r: char)
    ensures 'A' <= c <= 'Z' ==> 'a' <= r <= 'z' && r as int - c as int == 32
    ensures !('A' <= c <= 'Z') ==> r == c
  {
    if 'A' <= c <= 'Z' then (c as int + 32) as char else c
  }

  /** The string with every character folded by `tolower`. */
  function Lower(s: string): (r: string)
    ensures |r| == |s|
    ensures forall t :: 0 <= t < |s| ==> r[t] == ToLowerChar(s[t])
  {
    seq(|s|, t requires 0 <= t < |s| => ToLowerChar(s[t]))
  }

  /** Folding keeps a C string free of terminators. */
  lemma LowerNoNul(s: string)
    requires NoNul(s)
    ensures NoNul(Lower(s))
  {
  }

  /**
   * tolowercase(p, q): `q[i] = tolower(p[i])` for every i below strlen(p);
   * no other position of q is written, in particular no terminator.
   */
  method ToLowerCase(p: string, q: array<char>)
    requires NoNul(p) && |p| <= q.Length
    modifies q
    ensures q[..|p|] == Lower(p)
    ensures q[|p|..] == old(q[|p|..])
  {
    var i := 0;
    while i < |p|
      invariant 0 <= i <= |p|
      invariant forall t :: 0 <= t < i ==> q[t] == ToLowerChar(p[t])
      invariant q[i..] == old(q[i..])
    {
      q[i] := ToLowerChar(p[i]);
      i := i + 1;
    }
  }

  // ---------------------------------------------------------------------------
  // C strings in memory
  // ---------------------------------------------------------------------------

  /** The C string stored at the start of `mem`: everything before the first NUL (or all of `mem`). */
  function CStr(mem: seq<char>): (s: string)
    ensures NoNul(s) && |s| <= |mem| && s == mem[..|s|]
    ensures |s| < |mem| ==> mem[|s|] == NUL
  {
    if mem == [] || mem[0] == NUL then [] else [mem[0]] + CStr(mem[1..])
  }

  /** A terminator at position m, with none before it, ends the C string there. */
  lemma {:induction false} CStrAt(mem: seq<char>, m: nat)
    requires m < |mem| && mem[m] == NUL && NoNul(mem[..m])
    ensures CStr(mem) == mem[..m]
  {
    if m > 0 {
      assert mem[0] in mem[..m];
      assert mem[1..][..m - 1] == mem[1..m];
      assert NoNul(mem[1..][..m - 1]) by {
        forall c | c in mem[1..m] ensures c != NUL {
          var t :| 0 <= t < m - 1 && mem[1..m][t] == c;
          assert mem[..m][t + 1] == c;
        }
      }
      CStrAt(mem[1..], m - 1);
    }
  }

  /** Characters without a terminator, followed by more memory, read as themselves and then on. */
  lemma {:induction false} CStrAppend(s: string, rest: seq<char>)
    requires NoNul(s)
    ensures CStr(s + rest) == s + CStr(rest)
  {
    if s == [] {
      assert s + rest == rest;
    } else {
      var m := s + rest;
      var tail := s[1..];
      assert s[0] in s;
      assert m[0] == s[0] && m[0] != NUL;
      assert m[1..] == tail + rest;
      NoNulTail(s);
      CStrAppend(tail, rest);
      assert CStr(m) == [s[0]] + (tail + CStr(rest));
      assert [s[0]] + (tail + CStr(rest)) == ([s[0]] + tail) + CStr(rest);
      assert [s[0]] + tail == s;
    }
  }

  /** Dropping the first character keeps a string free of terminators. */
  lemma NoNulTail(s: string)
    requires NoNul(s) && s != []
    ensures NoNul(s[1..])
  {
    forall c | c in s[1..] ensures c != NUL {
      var t :| 0 <= t < |s| - 1 && s[1..][t] == c;
      assert s[t + 1] == c;
    }
  }

  /** The string read from memory whose first byte after `s` is NUL is exactly `s`. */
  lemma TerminatedReadsBack(s: string, rest: seq<char>)
    requires NoNul(s) && rest != [] && rest[0] == NUL
    ensures CStr(s + rest) == s
  {
    CStrAppend(s, rest);
  }

  // ---------------------------------------------------------------------------
  // strstr
  // ---------------------------------------------------------------------------

  predicate IsPrefix(p: string, s: string)
  {
    |p| <= |s| && s[..|p|] == p
  }

  /** `strstr(hay, needle) != NULL`: the needle occurs in the haystack (the empty needle always does). */
  predicate Contains(hay: string, needle: string)
  {
    IsPrefix(needle, hay) || (hay != [] && Contains(hay[1..], needle))
  }

  /** The needle occurs in the haystack starting at position `at`. */
  predicate OccursAt(hay: string, needle: string, at: nat)
  {
    at + |needle| <= |hay| && hay[at..at + |needle|] == needle
  }

  /** Contains agrees with the positional definition of a substring (both directions). */
  lemma {:induction false} ContainsIff(hay: string, needle: string)
    ensures Contains(hay, needle) <==> exists at: nat :: OccursAt(hay, needle, at)
  {
    if Contains(hay, needle) {
      if IsPrefix(needle, hay) {
        assert OccursAt(hay, needle, 0);
      } else {
        ContainsIff(hay[1..], needle);
        var at: nat :| OccursAt(hay[1..], needle, at);
        assert hay[at + 1..at + 1 + |needle|] == hay[1..][at..at + |needle|];
        assert OccursAt(hay, needle, at + 1);
      }
    }
    if exists at: nat :: OccursAt(hay, needle, at) {
      var at: nat :| OccursAt(hay, needle, at);
      if at > 0 {
        assert hay[1..][at - 1..at - 1 + |needle|] == hay[at..at + |needle|];
        assert OccursAt(hay[1..], needle, at - 1);
        ContainsIff(hay[1..], needle);
      }
    }
  }

  /** A needle longer than the haystack never occurs in it. */
  lemma {:induction false} ContainsShorter(hay: string, needle: string)
    requires Contains(hay, needle)
    ensures |needle| <= |hay|
  {
    if !IsPrefix(needle, hay) {
      ContainsShorter(hay[1..], needle);
    }
  }

  // ---------------------------------------------------------------------------
  // findPlatform
  // ---------------------------------------------------------------------------

  /** The lowest index whose haystack contains the needle, or None. */
  function FirstContaining(hays: seq<string>, needle: string): (r: Option<nat>)
    ensures r.Some? ==> r.value < |hays| && Contains(hays[r.value], needle)
    ensures r.Some? ==> forall t :: 0 <= t < r.value ==> !Contains(hays[t], needle)
    ensures r.None? <==> forall t :: 0 <= t < |hays| ==> !Contains(hays[t], needle)
  {
    if hays == [] then None
    else if Contains(hays[0], needle) then Some(0)
    else match FirstContaining(hays[1..], needle)
      case None => None
      case Some(t) => Some(t + 1)
  }

  /** The first haystack containing the needle is the one FirstContaining reports. */
  lemma FirstContainingAt(hays: seq<string>, needle: string, i: nat)
    requires i < |hays| && Contains(hays[i], needle)
    requires forall t :: 0 <= t < i ==> !Contains(hays[t], needle)
    ensures FirstContaining(hays, needle) == Some(i)
  {
    var r := FirstContaining(hays, needle);
    assert r.Some?;
  }

  /** A platform name matches the hint when its folded form contains the folded hint. */
  predicate Matches(name: string, hint: string)
  {
    Contains(Lower(name), Lower(hint))
  }

  function LowerAll(names: seq<string>): (r: seq<string>)
    ensures |r| == |names|
    ensures forall t :: 0 <= t < |names| ==> r[t] == Lower(names[t])
  {
    if names == [] then [] else [Lower(names[0])] + LowerAll(names[1..])
  }

  /**
   * The platform search as its authors intended it: the first platform whose
   * lower-cased name contains the lower-cased hint, or None when no name does.
   */
  function FirstMatch(names: seq<string>, hint: string): (r: Option<nat>)
    ensures r.Some? ==> r.value < |names| && Matches(names[r.value], hint)
    ensures r.Some? ==> forall t :: 0 <= t < r.value ==> !Matches(names[t], hint)
    ensures r.None? <==> forall t :: 0 <= t < |names| ==> !Matches(names[t], hint)
  {
    FirstContaining(LowerAll(names), Lower(hint))
  }

  /** Two strings that differ only in the case of their letters. */
  predicate SameUpToCase(a: string, b: string)
  {
    |a| == |b| && forall t :: 0 <= t < |a| ==> ToLowerChar(a[t]) == ToLowerChar(b[t])
  }

  /** Matching is case-insensitive: hints that differ only in case select the same platform. */
  lemma HintCaseInsensitive(names: seq<string>, h1: string, h2: string)
    requires SameUpToCase(h1, h2)
    ensures FirstMatch(names, h1) == FirstMatch(names, h2)
  {
    assert Lower(h1) == Lower(h2);
  }

  /**
   * What strstr sees for platform t: the folded name written into
   * `plat_name[sz]`, followed by the byte tolowercase never writes
   * (`plat_name[sz-1]`) and whatever memory lies after it (`hayTails[t]`).
   */
  function SeenNames(names: seq<string>, hayTails: seq<seq<char>>): (r: seq<string>)
    requires |hayTails| == |names|
    ensures |r| == |names|
    ensures forall t :: 0 <= t < |names| ==> r[t] == CStr(Lower(names[t]) + hayTails[t])
  {
    if names == [] then [] else [CStr(Lower(names[0]) + hayTails[0])] + SeenNames(names[1..], hayTails[1..])
  }

  /** What strstr sees as the needle: `name_search[pl_len]` holds no terminator, so the read runs on into `needleTail`. */
  function SeenHint(hint: string, needleTail: seq<char>): string
  {
    CStr(Lower(hint) + needleTail)
  }

  /**
   * findPlatform as written: the first platform whose name, as strstr reads
   * it past the buffer, contains the hint as strstr reads it past its
   * unterminated buffer; None when no platform's does.
   */
  function SearchAsWritten(names: seq<string>, hint: string, needleTail: seq<char>,
                           hayTails: seq<seq<char>>): (r: Option<nat>)
    requires |hayTails| == |names|
    ensures r.Some? ==> r.value < |names|
    ensures r.Some? ==> Contains(CStr(Lower(names[r.value]) + hayTails[r.value]), SeenHint(hint, needleTail))
    ensures r.Some? ==> forall t :: 0 <= t < r.value ==>
      !Contains(CStr(Lower(names[t]) + hayTails[t]), SeenHint(hint, needleTail))
    ensures r.None? <==> forall t :: 0 <= t < |names| ==>
      !Contains(CStr(Lower(names[t]) + hayTails[t]), SeenHint(hint, needleTail))
  {
    FirstContaining(SeenNames(names, hayTails), SeenHint(hint, needleTail))
  }

  /** An array holding `len` unwritten bytes followed by `tail`. */
  method StackBuffer(len: nat, tail: seq<char>) returns (a: array<char>)
    ensures fresh(a) && a.Length == len + |tail| && a[len..] == tail
  {
    a := new char[len + |tail|]((t: int) requires 0 <= t < len + |tail| =>
      if t < len then NUL else tail[t - len]);
  }

  /**
   * A stack buffer of exactly |s| characters (`char buf[len]`) filled by
   * tolowercase, as strstr later reads it: the C string that starts there,
   * running into `tail`, the memory behind the buffer.
   */
  method LowerIntoBuffer(s: string, tail: seq<char>) returns (seen: string)
    requires NoNul(s)
    ensures seen == CStr(Lower(s) + tail)
  {
    var buf := StackBuffer(|s|, tail);
    ToLowerCase(s, buf);
    assert buf[..] == buf[..|s|] + buf[|s|..];
    seen := CStr(buf[..]);
  }

  /**
   * findPlatform's search loop. `names[t]` is the name of platform t (its id
   * is modelled by its index); `needleTail` is the memory after
   * `name_search[pl_len]`; `hayTails[t]` is `plat_name` from its last byte on.
   */
  method FindPlatform(names: seq<string>, hint: string, needleTail: seq<char>, hayTails: seq<seq<char>>)
    returns (r: Option<nat>)
    requires NoNul(hint)
    requires forall t :: 0 <= t < |names| ==> NoNul(names[t])
    requires |hayTails| == |names|
    ensures r == SearchAsWritten(names, hint, needleTail, hayTails)
  {
    var needle := LowerIntoBuffer(hint, needleTail);
    ghost var seen := SeenNames(names, hayTails);
    var i := 0;
    while i < |names|
      invariant 0 <= i <= |names|
      invariant forall t :: 0 <= t < i ==> !Contains(seen[t], needle)
    {
      var platName := LowerIntoBuffer(names[i], hayTails[i]);
      assert platName == seen[i];
      if Contains(platName, needle) {
        FirstContainingAt(seen, needle, i);
        return Some(i);
      }
      i := i + 1;
    }
    return None;
  }

  /** When both buffers happen to be followed by a NUL, the search is the intended one. */
  lemma TerminatedSearchIsIntended(names: seq<string>, hint: string, needleTail: seq<char>,
                                   hayTails: seq<seq<char>>)
    requires NoNul(hint)
    requires forall t :: 0 <= t < |names| ==> NoNul(names[t])
    requires |hayTails| == |names|
    requires needleTail != [] && needleTail[0] == NUL
    requires forall t :: 0 <= t < |hayTails| ==> hayTails[t] != [] && hayTails[t][0] == NUL
    ensures SearchAsWritten(names, hint, needleTail, hayTails) == FirstMatch(names, hint)
  {
    LowerNoNul(hint);
    TerminatedReadsBack(Lower(hint), needleTail);
    forall t | 0 <= t < |names|
      ensures SeenNames(names, hayTails)[t] == LowerAll(names)[t]
    {
      LowerNoNul(names[t]);
      TerminatedReadsBack(Lower(names[t]), hayTails[t]);
    }
    assert SeenNames(names, hayTails) == LowerAll(names);
  }

  /**
   * The unterminated needle can make the search miss: if the byte after
   * `name_search` is 'x', the hint "FPGA" no longer finds the platform "fpga".
   */
  lemma UnterminatedHintMisses()
    ensures FirstMatch(["fpga"], "FPGA") == Some(0)
    ensures SearchAsWritten(["fpga"], "FPGA", "x", [[NUL]]) == None
  {
    assert Lower("FPGA") == "fpga";
    assert Lower("fpga") == "fpga";
    assert IsPrefix("fpga", "fpga");
    TerminatedReadsBack("fpga", [NUL]);
    CStrAppend("fpga", "x");
    assert CStr("x") == "x";
    assert SeenHint("FPGA", "x") == "fpgax";
    if Contains("fpga", "fpgax") {
      ContainsShorter("fpga", "fpgax");
    }
  }

  // ---------------------------------------------------------------------------
  // getBinaryPath
  // ---------------------------------------------------------------------------

  /**
   * strcat(dst, src): `src` is copied over the terminator of the C string in
   * `dst` and a new terminator follows it; bytes after that are untouched.
   */
  method StrCat(dst: array<char>, src: string)
    requires NoNul(src) && NUL in dst[..]
    requires |CStr(dst[..])| + |src| < dst.Length
    modifies dst
    ensures CStr(dst[..]) == old(CStr(dst[..])) + src
    ensures NUL in dst[..] && |CStr(dst[..])| < dst.Length
    ensures forall t :: old(|CStr(dst[..])|) + |src| < t < dst.Length ==> dst[t] == old(dst[t])
  {
    ghost var prefix := CStr(dst[..]);
    var len := 0;
    while dst[len] != NUL
      invariant 0 <= len <= |prefix|
      decreases |prefix| - len
    {
      len := len + 1;
    }
    var i := 0;
    while i < |src|
      invariant 0 <= i <= |src|
      invariant dst[..len] == prefix
      invariant forall t :: 0 <= t < i ==> dst[len + t] == src[t]
      invariant forall t :: len + i <= t < dst.Length ==> dst[t] == old(dst[t])
    {
      dst[len + i] := src[i];
      i := i + 1;
    }
    dst[len + |src|] := NUL;
    assert dst[..len + |src|] == prefix + src;
    CStrAt(dst[..], len + |src|);
    assert dst[..][len + |src|] == NUL;
  }

  /** The directory getBinaryPath picks for a transform size: 64 has its own, every other size shares one. */
  function BinaryDir(n0: int): (d: string)
    ensures NoNul(d) && |d| <= 14
    ensures d == "emulation/" || d == "bin/emulation/"
  {
    if n0 == 64 then "bin/emulation/" else "emulation/"
  }

  /** The switch on N[0]: appends the size's directory to the empty path. */
  method AppendBinaryDir(path: array<char>, n0: int)
    requires NUL in path[..] && CStr(path[..]) == [] && 15 <= path.Length
    modifies path
    ensures NUL in path[..] && CStr(path[..]) == BinaryDir(n0)
  {
    match n0 {
      case 16 =>
        StrCat(path, "emulation/");
      case 32 =>
        StrCat(path, "emulation/");
      case 64 =>
        StrCat(path, "bin/emulation/");
      case _ =>
        StrCat(path, "emulation/");
    }
  }

  lemma BinaryPathSpelled(n0: int)
    ensures n0 == 64 ==> BinaryDir(n0) + "fft3d" + ".aocx" == "bin/emulation/fft3d.aocx"
    ensures n0 != 64 ==> BinaryDir(n0) + "fft3d" + ".aocx" == "emulation/fft3d.aocx"
  {
  }

  /**
   * getBinaryPath: the path is reset to the empty string, a directory chosen
   * by N[0] is appended, then the file name and extension; the result is
   * whether that file can be read (`fileExists` stands for the access test).
   * The caller's buffer holds 500 characters; the longest path needs 25.
   */
  method GetBinaryPath(path: array<char>, n: seq<int>, fileExists: string -> bool) returns (found: bool)
    requires 1 <= |n| && 25 <= path.Length
    modifies path
    ensures NUL in path[..]
    ensures n[0] == 64 ==> CStr(path[..]) == "bin/emulation/fft3d.aocx"
    ensures n[0] != 64 ==> CStr(path[..]) == "emulation/fft3d.aocx"
    ensures found == fileExists(CStr(path[..]))
  {
    path[0] := NUL;
    assert path[..][0] == NUL;
    assert CStr(path[..]) == [];
    AppendBinaryDir(path, n[0]);
    StrCat(path, "fft3d");
    StrCat(path, ".aocx");
    StrCat(path, "");
    BinaryPathSpelled(n[0]);
    found := fileExists(CStr(path[..]));
  }
}
