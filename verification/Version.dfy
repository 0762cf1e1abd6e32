// The Version object: parse resets and fills its value.
module VersionObject {
  import opened Basics
  import opened VersionData
  import opened VersionGrammar
  import opened VersionSyntax

  class Version {
    var data: Data

    constructor ()
      ensures data == EMPTY
    {
      data := EMPTY;
    }

    // What a failed parse leaves behind is unspecified.
    method Parse(s: string) returns (ok: bool)
      modifies this
      ensures ok <==> exists d :: Derives(s, d)
      ensures ok ==> Derives(s, data)
    {
      data := EMPTY;
      ghost var parsed := ParseVersion(s);
      forall d ensures Derives(s, d) <==> parsed == Some(d) { ParserCorrect(s, d); }
      match ParseVersion(s)
      case Some(d) =>
        data := d;
        ok := true;
        assert Derives(s, data);
      case None =>
        data := *;
        ok := false;
    }

    // The string constructor, which throws when the string is not a version.
    static method FromString(s: string) returns (r: Option<Version>)
      ensures r.Some? <==> exists d :: Derives(s, d)
      ensures r.Some? ==> fresh(r.value) && Derives(s, r.value.data)
    {
      var v := new Version();
      var ok := v.Parse(s);
      r := if ok then Some(v) else None;
    }
  }
}
