/** Provider IDs, the strings that tie a machine to its host. A `char` stands for a byte. */
module ProviderIds {
  import opened Options
  import opened Sequences

  const PREFIX := "b7://"

  function Print(ns: string, name: string): string {
    PREFIX + ns + "/" + name
  }

  /** The text before and after the first slash behind the prefix. The prefix itself is
      measured, not compared. */
  function Parse(id: string): Option<(string, string)> {
    if |id| <= |PREFIX| then None else
      var parts := id[|PREFIX|..];
      var k := IndexFrom(parts, '/', 0);
      if k == 0 || k == |parts| then None else Some((parts[..k], parts[k + 1..]))
  }

  method ParseProviderId(id: string) returns (r: Option<(string, string)>)
    ensures r == Parse(id)
  {
    if |id| <= |PREFIX| {
      return None;
    }
    var parts := id[|PREFIX|..];
    var idx := 0;
    for i := 0 to |parts|
      invariant idx == 0 && IndexFrom(parts, '/', 0) == IndexFrom(parts, '/', i)
    {
      if parts[i] == '/' {
        idx := i;
        break;
      }
    }
    if idx == 0 {
      return None;
    }
    return Some((parts[..idx], parts[idx + 1..]));
  }

  /** What parses: any five bytes, a namespace that is not empty and has no slash, a slash, and a
      name, which may be empty or have slashes. */
  lemma ParseExactly(id: string, ns: string, name: string)
    ensures Parse(id) == Some((ns, name)) <==>
            |id| >= 5 && id[5..] == ns + "/" + name && ns != "" && '/' !in ns
  {
    if |id| > 5 {
      var parts := id[5..];
      var k := IndexFrom(parts, '/', 0);
      SlashFree(parts, k);
      if parts == ns + "/" + name && '/' !in ns {
        assert parts[..|ns|] == ns && parts[|ns| + 1..] == name;
        SlashUnique(parts, |ns|);
      }
    }
  }

  lemma SlashUnique(s: string, k: nat)
    requires k < |s| && s[k] == '/' && '/' !in s[..k]
    ensures IndexFrom(s, '/', 0) == k
  {
  }

  lemma SlashFree(s: string, k: nat)
    requires k == IndexFrom(s, '/', 0)
    ensures '/' !in s[..k]
  {
  }

  /** Parsing undoes printing exactly for the non-empty namespaces without a slash. */
  lemma ParseUndoesPrint(ns: string, name: string)
    ensures Print(ns, name) == "b7://" + ns + "/" + name
    ensures Parse(Print(ns, name)) == Some((ns, name)) <==> ns != "" && '/' !in ns
  {
    var id := Print(ns, name);
    var parts := id[|PREFIX|..];
    assert parts == ns + "/" + name;
    var k := IndexFrom(parts, '/', 0);
    if '/' !in ns {
      assert parts[..|ns|] == ns;
      SlashUnique(parts, |ns|);
      assert parts[|ns| + 1..] == name;
    } else {
      SlashFree(parts, k);
    }
  }

  /** Printing a successful parse gives the input with its first five bytes replaced by the
      prefix, and such a parse survives the replacement. */
  lemma PrintAfterParse(id: string)
    requires Parse(id).Some?
    ensures var (ns, name) := Parse(id).value;
            && Print(ns, name) == "b7://" + id[5..]
            && Parse(Print(ns, name)) == Parse(id)
  {
  }
}
