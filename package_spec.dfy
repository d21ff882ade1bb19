/** The `name[@version]` argument of `bert install` (src/main.rs). */
module PackageSpec {
  import opened Common
  import opened Strings

  /** Splits a spec at its first '@' into a name and an optional version. */
  function ParsePackageSpec(spec: string): (r: (string, Option<string>))
    ensures '@' !in spec ==> r == (spec, None)
    ensures '@' in spec ==> r.1.Some? && '@' !in r.0 && r.0 + "@" + r.1.value == spec
  {
    match IndexOf(spec, '@')
    case None => (spec, None)
    case Some(i) =>
      assert spec == spec[..i] + "@" + spec[i + 1..];
      (spec[..i], Some(spec[i + 1..]))
  }

  /**
   * The split is the only one whose name holds no '@': any other way of writing the
   * spec as name@version with an '@'-free name gives the same pair.
   */
  lemma ParsePackageSpecUnique(spec: string, name: string, version: string)
    requires '@' !in name && name + "@" + version == spec
    ensures ParsePackageSpec(spec) == (name, Some(version))
  {
    assert spec[|name|] == '@';
    assert spec[..|name|] == name;
    var i := IndexOf(spec, '@').value;
    assert forall j :: 0 <= j < |name| ==> spec[j] != '@' by {
      forall j | 0 <= j < |name| ensures spec[j] != '@' {
        assert spec[j] == name[j];
      }
    }
    assert forall j :: 0 <= j < i ==> spec[j] != '@' by {
      forall j | 0 <= j < i ensures spec[j] != '@' {
        assert spec[j] == spec[..i][j];
      }
    }
    assert spec[|name| + 1..] == version;
  }
}
