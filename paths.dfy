/** POSIX path manipulation as Python's `os.path` (posixpath) does it:
    `basename`, `dirname`, `join` and the extension half of `splitext`. */
module Paths {
  import opened Text

  /** `os.path.basename(p)`: everything after the last `/`. */
  function Basename(p: string): (b: string)
    ensures '/' !in b
    ensures |b| <= |p| && b == p[|p| - |b|..]
  {
    p[RFind(p, '/') + 1..]
  }

  /** `os.path.dirname(p)`: everything up to the last `/`, with trailing
      slashes removed unless the head consists of slashes only (exactly
      when removing them would leave nothing). */
  function Dirname(p: string): string
  {
    var head := p[..RFind(p, '/') + 1];
    var stripped := RStripChar(head, '/');
    if stripped != "" then stripped else head
  }

  /** `s.rstrip(c)` for a single character. */
  function RStripChar(s: string, c: char): (r: string)
    ensures |r| <= |s| && r == s[..|r|]
  {
    if s != [] && s[|s| - 1] == c then RStripChar(s[..|s| - 1], c) else s
  }

  /** `os.path.join(a, b)` for two components. */
  function Join(a: string, b: string): string
  {
    if |b| > 0 && b[0] == '/' then b
    else if a == "" || a[|a| - 1] == '/' then a + b
    else a + "/" + b
  }

  /** `os.path.splitext(p)[1]`: from the last dot of the last component, when
      that component has something other than dots before it; else "". */
  function Ext(p: string): (e: string)
    ensures e == "" || (e[0] == '.' && '.' !in e[1..] && '/' !in e)
  {
    var sepIndex := RFind(p, '/');
    var dotIndex := RFind(p, '.');
    if dotIndex > sepIndex && HasNonDot(p[sepIndex + 1..dotIndex]) then
      NoSlashAfter(p, dotIndex);
      assert p[dotIndex..][1..] == p[dotIndex + 1..];
      ExtFrom(p, sepIndex, dotIndex)
    else ExtFrom(p, sepIndex, dotIndex)
  }

  /** The extension rule of `splitext`, given the positions of the last `/`
      and the last `.`. */
  function ExtFrom(p: string, sepIndex: int, dotIndex: int): string
    requires -1 <= sepIndex < |p| && -1 <= dotIndex < |p|
  {
    if dotIndex > sepIndex && HasNonDot(p[sepIndex + 1..dotIndex]) then p[dotIndex..] else ""
  }

  /** Some character of `s` is not a dot. */
  predicate HasNonDot(s: string)
  {
    s != [] && (s[0] != '.' || HasNonDot(s[1..]))
  }

  lemma NoSlashAfter(p: string, j: int)
    requires RFind(p, '/') < j <= |p|
    ensures '/' !in p[j..]
  {
    var i := RFind(p, '/');
    if i == -1 {
      assert p[j..] == p[0..][j..];
    } else {
      assert p[j..] == p[i + 1..][j - i - 1..];
    }
  }

  /** Joining a bare name onto a folder keeps the name as the last component,
      so the joined path has the name's basename and extension, and its
      dirname is the folder itself when the folder has no trailing slash. */
  lemma JoinedName(folder: string, name: string)
    requires '/' !in name
    ensures Basename(Join(folder, name)) == name
    ensures Ext(Join(folder, name)) == Ext(name)
    ensures folder != "" && folder[|folder| - 1] != '/' ==> Dirname(Join(folder, name)) == folder
  {
    if folder == "" || folder[|folder| - 1] == '/' {
      LastComponent(folder, name);
    } else {
      var j := (folder + "/") + name;
      assert Join(folder, name) == j;
      LastComponent(folder + "/", name);
      RFindAppend(folder + "/", name, '/');
      assert j[..|folder| + 1] == folder + "/";
      assert RStripChar(folder + "/", '/') == RStripChar(folder, '/') by {
        assert (folder + "/")[..|folder|] == folder;
      }
    }
  }

  lemma LastComponent(prefix: string, name: string)
    requires '/' !in name
    requires prefix == "" || prefix[|prefix| - 1] == '/'
    ensures Basename(prefix + name) == name
    ensures Ext(prefix + name) == Ext(name)
  {
    var j := prefix + name;
    RFindAppend(prefix, name, '/');
    assert RFind(j, '/') == |prefix| - 1;
    assert j[|prefix|..] == name;
    LastComponentExt(prefix, name);
  }

  lemma LastComponentExt(prefix: string, name: string)
    requires '/' !in name
    requires prefix == "" || prefix[|prefix| - 1] == '/'
    requires RFind(prefix + name, '/') == |prefix| - 1
    ensures Ext(prefix + name) == Ext(name)
  {
    RFindAppend(prefix, name, '.');
    if '.' in name {
      DottedLastComponent(prefix, name);
    } else {
      assert RFind(prefix + name, '.') <= |prefix| - 1;
    }
  }

  lemma DottedLastComponent(prefix: string, name: string)
    requires '/' !in name && '.' in name
    requires RFind(prefix + name, '/') == |prefix| - 1
    requires RFind(prefix + name, '.') == |prefix| + RFind(name, '.')
    ensures Ext(prefix + name) == Ext(name)
  {
    var j := prefix + name;
    var d := RFind(name, '.');
    ExtFromShift(prefix, name, -1, d, RFind(j, '/'), RFind(j, '.'));
    ExtIsExtFrom(j);
    assert RFind(name, '/') == -1;
    ExtIsExtFrom(name);
  }

  lemma ExtIsExtFrom(p: string)
    ensures Ext(p) == ExtFrom(p, RFind(p, '/'), RFind(p, '.'))
  {
  }

  /** The extension rule only looks at the characters between the two
      positions and after the dot, so a prefix shifts it unchanged. */
  lemma ExtFromShift(prefix: string, name: string, sepIndex: int, dotIndex: int, shiftedSep: int, shiftedDot: int)
    requires -1 <= sepIndex < |name| && -1 <= dotIndex < |name|
    requires shiftedSep == |prefix| + sepIndex && shiftedDot == |prefix| + dotIndex
    ensures ExtFrom(prefix + name, shiftedSep, shiftedDot) == ExtFrom(name, sepIndex, dotIndex)
  {
    var j := prefix + name;
    if dotIndex > sepIndex {
      assert j[shiftedSep + 1..shiftedDot] == name[sepIndex + 1..dotIndex];
      assert j[shiftedDot..] == name[dotIndex..];
    }
  }
}
