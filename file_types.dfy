// The category table of `onlyfiles`: each category name with the file
// extensions it collects, in the table's own (insertion) order.

module FileTypes {
  import opened Strings

  type Table = seq<(string, seq<string>)>

  /** `file_types` */
  const FileTypes: Table := [
    ("Music", [".mp3", ".wav", ".aac", ".flac", ".ogg", ".m4a"]),
    ("Videos", [".mp4", ".mkv", ".avi", ".mov", ".wmv", ".flv", ".webm"]),
    ("Images", [".jpg", ".jpeg", ".png", ".gif", ".bmp", ".tiff", ".svg", ".webp"]),
    ("Documents", [".pdf", ".txt", ".docx", ".doc", ".xls", ".xlsx", ".ppt", ".pptx", ".odt", ".md"]),
    ("Others", [])
  ]

  /** `table.keys()`, in order. */
  function Keys(t: Table): (r: seq<string>)
    ensures |r| == |t| && forall i :: 0 <= i < |t| ==> r[i] == t[i].0
  {
    seq(|t|, i requires 0 <= i < |t| => t[i].0)
  }

  /** A table is a dictionary: no key twice. */
  predicate DistinctKeys(t: Table) {
    forall i, j :: 0 <= i < j < |t| ==> t[i].0 != t[j].0
  }

  /** `table[key]` for a key of the table. */
  function Lookup(t: Table, key: string): (exts: seq<string>)
    requires key in Keys(t)
    ensures exists i :: 0 <= i < |t| && t[i].0 == key && t[i].1 == exts
    ensures DistinctKeys(t) ==> forall i :: 0 <= i < |t| && t[i].0 == key ==> t[i].1 == exts
  {
    if t[0].0 == key then t[0].1
    else
      assert key in Keys(t[1..]) by {
        var i :| 0 <= i < |t| && Keys(t)[i] == key;
        assert Keys(t[1..])[i - 1] == key;
      }
      Lookup(t[1..], key)
  }

  /** An extension suitable for `splitext` comparison: a dot, then lower case only. */
  predicate IsLowerExt(e: string) {
    |e| >= 2 && e[0] == '.' && '.' !in e[1..] && Lower(e) == e
  }

  /** Every listed extension is a lower-case `.xyz`. */
  lemma TableExtensionsLower()
    ensures forall i, k :: 0 <= i < |FileTypes| && 0 <= k < |FileTypes[i].1| ==>
              IsLowerExt(FileTypes[i].1[k])
  {
    forall i | 0 <= i < |FileTypes| ensures AllLowerExts(FileTypes[i].1) {
      AllLowerExtsOf(FileTypes[i].1);
    }
  }

  predicate AllLowerExts(exts: seq<string>) {
    forall k :: 0 <= k < |exts| ==> IsLowerExt(exts[k])
  }

  /** A dot followed by lower-case letters and digits. */
  predicate PlainExt(e: string) {
    |e| >= 2 && e[0] == '.' && forall k :: 1 <= k < |e| ==> 'a' <= e[k] <= 'z' || '0' <= e[k] <= '9'
  }

  lemma AllLowerExtsOf(exts: seq<string>)
    requires forall k :: 0 <= k < |exts| ==> PlainExt(exts[k])
    ensures AllLowerExts(exts)
  {
    forall k | 0 <= k < |exts| ensures IsLowerExt(exts[k]) {
      PlainExtLower(exts[k]);
    }
  }

  lemma PlainExtLower(e: string)
    requires PlainExt(e)
    ensures IsLowerExt(e)
  {
    assert Lower(e) == e;
    forall k | 0 <= k < |e[1..]| ensures e[1..][k] != '.' {
      assert e[1..][k] == e[k + 1];
    }
  }

  /** The categories are exactly Music, Videos, Images, Documents and Others, in that order. */
  lemma TableKeys()
    ensures Keys(FileTypes) == ["Music", "Videos", "Images", "Documents", "Others"]
    ensures DistinctKeys(FileTypes)
  {
  }

  /** "Others" lists no extension: it takes what no other category claims. */
  lemma OthersEmpty()
    ensures "Others" in Keys(FileTypes) && Lookup(FileTypes, "Others") == []
  {
    TableKeys();
  }

  /** No extension belongs to two categories, so a first-match lookup is unambiguous. */
  lemma TableDisjoint()
    ensures forall i, j, e :: 0 <= i < j < |FileTypes| && e in FileTypes[i].1 ==> e !in FileTypes[j].1
  {
  }
}
