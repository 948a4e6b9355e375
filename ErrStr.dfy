/**
 * err_to_str: the name of a FatFs result code, looked up by walking a packed
 * table of NUL-terminated names.
 */
module ErrStr {

  /** The names of the FRESULT codes FR_OK (0) .. FR_INVALID_PARAMETER (19), in order. */
  const FR_NAMES: seq<string> := [
    "OK", "DISK_ERR", "INT_ERR", "NOT_READY", "NO_FILE", "NO_PATH",
    "INVALID_NAME", "DENIED", "EXIST", "INVALID_OBJECT", "WRITE_PROTECTED",
    "INVALID_DRIVE", "NOT_ENABLED", "NO_FILE_SYSTEM", "MKFS_ABORTED", "TIMEOUT",
    "LOCKED", "NOT_ENOUGH_CORE", "TOO_MANY_OPEN_FILES", "INVALID_PARAMETER"
  ]

  /**
   * The packed table err_to_str walks: the adjacent C literals "OK\0"
   * "DISK_ERR\0" ... "INVALID_PARAMETER\0" concatenate to every name followed
   * by a NUL, and the literal ends with one more NUL of its own.
   */
  const ERR_TABLE: string := Pack(FR_NAMES) + "\0"

  /** The name that err_to_str is meant to give result code `rc`, as an index lookup. */
  function FrName(rc: int): string
  {
    if 0 <= rc < |FR_NAMES| then FR_NAMES[rc] else ""
  }

  /** A name that can be stored NUL-terminated: non-empty, with no NUL inside. */
  predicate IsCName(name: string)
  {
    name != [] && forall k :: 0 <= k < |name| ==> name[k] != '\0'
  }

  /** Names laid out one after the other, each followed by a NUL. */
  function Pack(names: seq<string>): string
  {
    if names == [] then [] else names[0] + "\0" + Pack(names[1..])
  }

  /** The C string that starts at offset `p` of `s`: the characters up to the next NUL. */
  function CStringAt(s: string, p: nat): (r: string)
    requires p <= |s|
    ensures p + |r| <= |s| && r == s[p..p + |r|]
    ensures forall k :: 0 <= k < |r| ==> r[k] != '\0'
    ensures p + |r| < |s| ==> s[p + |r|] == '\0'
    decreases |s| - p
  {
    if p == |s| || s[p] == '\0' then [] else [s[p]] + CStringAt(s, p + 1)
  }


  lemma {:induction false} PackAppend(names: seq<string>, name: string)
    ensures Pack(names + [name]) == Pack(names) + name + "\0"
    decreases |names|
  {
    if names == [] {
      assert [] + [name] == [name];
    } else {
      assert (names + [name])[1..] == names[1..] + [name];
      PackAppend(names[1..], name);
    }
  }

  lemma {:induction false} PackSplit(names: seq<string>, i: nat)
    requires i < |names|
    ensures Pack(names) == Pack(names[..i]) + names[i] + "\0" + Pack(names[i + 1..])
    decreases i
  {
    if i > 0 {
      PackSplit(names[1..], i - 1);
      assert names[1..][..i - 1] == names[1..i];
      assert names[..i][1..] == names[1..i];
      assert names[1..][i - 1] == names[i];
      assert names[1..][i..] == names[i + 1..];
    }
  }

  /** A name with no NUL inside, followed by a NUL, is the C string that starts where it starts. */
  lemma CStringAtIs(s: string, p: nat, w: string)
    requires p + |w| < |s| && s[p..p + |w|] == w && s[p + |w|] == '\0'
    requires forall k :: 0 <= k < |w| ==> w[k] != '\0'
    ensures CStringAt(s, p) == w
  {
  }

  /**
   * Where entry `i` of a packed table sits: right after the first `i` entries,
   * as its characters followed by one NUL.
   */
  lemma EntryAt(names: seq<string>, i: nat)
    requires i < |names|
    ensures |Pack(names[..i])| + |names[i]| < |Pack(names) + "\0"|
    ensures (Pack(names) + "\0")[|Pack(names[..i])|..|Pack(names[..i])| + |names[i]|] == names[i]
    ensures (Pack(names) + "\0")[|Pack(names[..i])| + |names[i]|] == '\0'
    ensures |Pack(names[..i + 1])| == |Pack(names[..i])| + |names[i]| + 1
  {
    PackSplit(names, i);
    PackAppend(names[..i], names[i]);
    assert names[..i + 1] == names[..i] + [names[i]];
  }

  /**
   * The two ends of a packed table with its final NUL: it opens with the
   * first name and that name's NUL, and closes with the last name's NUL and
   * the final NUL, which a walk reads as an empty name.
   */
  lemma {:induction false} PackedTableEnds(names: seq<string>)
    requires names != []
    ensures |names[0]| + 1 < |Pack(names) + "\0"|
    ensures (Pack(names) + "\0")[..|names[0]| + 1] == names[0] + "\0"
    ensures (Pack(names) + "\0")[|Pack(names) + "\0"| - 2..] == "\0\0"
  {
    PackSplit(names, |names| - 1);
    assert names[|names|..] == [];
  }

  /** Every name in the table can be stored NUL-terminated. */
  lemma NamesAreCNames()
    ensures |FR_NAMES| == 20
    ensures forall i :: 0 <= i < |FR_NAMES| ==> IsCName(FR_NAMES[i])
  {
  }

  /**
   * `while (*str++) ;`: from the start of a name of `len` non-NUL characters
   * followed by a NUL, step past that NUL to where the next name starts.
   */
  method SkipName(table: string, start: nat, ghost len: nat) returns (str: nat)
    requires start + len < |table| && table[start + len] == '\0'
    requires forall k :: start <= k < start + len ==> table[k] != '\0'
    ensures str == start + len + 1
  {
    var c := table[start];
    str := start + 1;
    while c != '\0'
      invariant start < str <= start + len + 1
      invariant c == table[str - 1]
      invariant c == '\0' <==> str == start + len + 1
      decreases start + len + 1 - str
    {
      c := table[str];
      str := str + 1;
    }
  }

  /**
   * The pointer walk of err_to_str over a packed table: skip one name per
   * step by scanning past its NUL, until `rc` names are skipped or the walk
   * reaches the empty string formed by the table's final NUL. Returns the
   * offset the walk stops at.
   */
  method FindName(table: string, ghost names: seq<string>, rc: int) returns (str: nat)
    requires table == Pack(names) + "\0"
    requires forall j :: 0 <= j < |names| ==> IsCName(names[j])
    ensures str < |table|
    ensures CStringAt(table, str) == if 0 <= rc < |names| then names[rc] else ""
  {
    str := 0;
    var i := 0;
    assert names[..0] == [];
    while i != rc && table[str] != '\0'
      invariant 0 <= i <= |names|
      invariant 0 <= rc ==> i <= rc
      invariant str == |Pack(names[..i])| < |table|
      invariant i == |names| ==> table[str] == '\0'
      invariant i < |names| ==> table[str] == names[i][0] != '\0'
      decreases |names| - i
    {
      EntryAt(names, i);
      str := SkipName(table, str, |names[i]|);
      i := i + 1;
      if i < |names| {
        EntryAt(names, i);
      } else {
        assert names[..i] == names;
      }
    }
    if i < |names| {
      EntryAt(names, i);
      CStringAtIs(table, str, names[i]);
    } else {
      assert names[..i] == names;
    }
  }

  /** err_to_str: the name of result code `rc`, or "" for a code past the table. */
  method ErrToStr(rc: int) returns (s: string)
    ensures s == FrName(rc)
    ensures 0 <= rc < 20 ==> s == FR_NAMES[rc] && s != ""
    ensures (rc < 0 || rc >= 20) ==> s == ""
  {
    NamesAreCNames();
    var str := FindName(ERR_TABLE, FR_NAMES, rc);
    s := CStringAt(ERR_TABLE, str);
  }
}
