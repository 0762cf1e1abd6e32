// Examples after those of tests/version.cpp.
module VersionExamples {
  import opened Basics
  import opened Decimal
  import opened VersionData
  import opened VersionGrammar
  import opened VersionSyntax
  import opened VersionPrinter
  import opened VersionOrder

  const FULL := Data([1, 9, 0], Some([Text("a"), Number(2), Text("d----d")]), Some(["b-m", "1"]))

  // Every part of a version string, as it is written.
  lemma FullVersion()
    ensures ParseVersion("v1.9.0-a.2.d----d+b-m.1") == Some(FULL)
  {
    hide ParseVersion, ListAs, TaggedAs;
    NumbersPart();
    PreReleasePart();
    BuildPart();
    var c := Cut("v", "1.9.0", "-a.2.d----d", "+b-m.1", ["1", "9", "0"], ["a", "2", "d----d"], ["b-m", "1"]);
    ParserComplete("v1.9.0-a.2.d----d+b-m.1", FULL, c);
  }

  lemma NumbersPart()
    ensures ListAs(NumberText, "1.9.0", [1, 9, 0], ["1", "9", "0"])
  {
    assert Join(["1", "9", "0"]) == "1.9.0" by {
      assert ["1", "9", "0"][1..] == ["9", "0"] && ["9", "0"][1..] == ["0"];
      assert Join(["9", "0"]) == "9.0";
    }
    OneDigit('1');
    OneDigit('9');
    OneDigit('0');
  }

  lemma PreReleasePart()
    ensures TaggedAs('-', PreReleaseText, "-a.2.d----d", FULL.preRelease, ["a", "2", "d----d"])
  {
    var texts := ["a", "2", "d----d"];
    assert Join(texts) == "a.2.d----d" by {
      assert texts[1..] == ["2", "d----d"] && ["2", "d----d"][1..] == ["d----d"];
      assert Join(["2", "d----d"]) == "2.d----d";
    }
    OneDigit('2');
    assert PreReleaseText("a", Text("a")) && PreReleaseText("d----d", Text("d----d"));
    assert "-a.2.d----d"[1..] == "a.2.d----d";
  }

  lemma BuildPart()
    ensures TaggedAs('+', IdentifierText, "+b-m.1", FULL.buildMetadata, ["b-m", "1"])
  {
    assert Join(["b-m", "1"]) == "b-m.1" by { assert ["b-m", "1"][1..] == ["1"]; }
    assert "+b-m.1"[1..] == "b-m.1";
  }

  lemma OneDigit(c: char)
    requires IsDigit(c)
    ensures NumberText([c], DigitValue(c))
  {
    assert [c][..0] == "";
  }

  function Pre(elements: seq<Identifier>): Data {
    Data([1, 10, 0], Some(elements), None)
  }

  // The precedence chain of the tests: from 1.9.0 over numeric pre-releases of 1.10.0 ...
  lemma NumericChain()
    ensures Less(Data([1, 9, 0], None, None), Pre([Number(0), Number(2), Number(0)]))
    ensures Less(Pre([Number(0), Number(2), Number(0)]), Pre([Number(0), Number(10), Number(0)]))
    ensures Less(Pre([Number(0), Number(10), Number(0)]), Pre([Text("alpha"), Number(0)]))
  {
    IdentifierLessIsTotal();
    LexFound(NatLess, [1, 9, 0], [1, 10, 0], 1);
    LexFound(IdentifierLess, [Number(0), Number(2), Number(0)], [Number(0), Number(10), Number(0)], 1);
  }

  // ... and textual ones, to 1.10.0 itself.
  lemma TextualChain()
    ensures Less(Pre([Text("alpha"), Number(0)]), Pre([Text("alpha"), Number(1)]))
    ensures Less(Pre([Text("alpha"), Number(1)]), Pre([Text("alpha"), Number(1), Number(0)]))
    ensures Less(Pre([Text("alpha"), Number(1), Number(0)]), Pre([Text("dev")]))
    ensures Less(Pre([Text("dev")]), Data([1, 10, 0], None, None))
  {
    IdentifierLessIsTotal();
    LexFound(IdentifierLess, [Text("alpha"), Number(0)], [Text("alpha"), Number(1)], 1);
    LexFound(IdentifierLess, [Text("alpha"), Number(1)], [Text("alpha"), Number(1), Number(0)], 2);
    assert LexLess(CharLess, "alpha", "dev");
  }
}
