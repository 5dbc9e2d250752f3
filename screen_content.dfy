/** `ClickScreenContent` (common.py): click a button found on screen by one of
    its sample images, and fail while no sample has ever been found. */
module ScreenContent {
  import opened Outcomes
  import Decimal

  /** The message of the `IndexError` raised when no sample was found. */
  const MissingMessage := "Target button is missing."

  /** Python truthiness of an `Optional[int]`: `None` and `0` are false. */
  predicate Truthy(given: Option<int>) {
    given.Some? && given.value != 0
  }

  /** The `sample_count` the constructor stores. */
  function EffectiveSampleCount(given: Option<int>): (n: int)
    ensures Truthy(given) ==> n == given.value
    ensures !Truthy(given) ==> n == 1
    ensures n != 0
  {
    if Truthy(given) then given.value else 1
  }

  /** The one sample tried when `sample_count == 1`. */
  function SinglePath(name: string): string {
    "./samples/" + name + ".png"
  }

  /** The sample with number `i`, tried when `sample_count != 1`. */
  function IndexedPath(name: string, i: nat): string {
    "./samples/" + name + "." + Decimal.NatToString(i) + ".png"
  }

  /** The sample files one `execute` looks for, in the order it starts looking:
      `range(1, count + 1)` is empty when `count < 1`. */
  function SamplePaths(name: string, count: int): (paths: seq<string>)
    ensures count == 1 ==> paths == [SinglePath(name)]
    ensures count != 1 ==> |paths| == (if count > 0 then count else 0)
    ensures count != 1 ==> forall k :: 0 <= k < |paths| ==> paths[k] == IndexedPath(name, k + 1)
  {
    if count == 1 then [SinglePath(name)]
    else
      var n := if count > 0 then count else 0;
      seq(n, k requires 0 <= k < n => IndexedPath(name, k + 1))
  }

  /** The paths of `paths` whose image is on `screen`. */
  function Located(paths: seq<string>, screen: set<string>): set<string> {
    set p | p in paths && p in screen
  }

  /** Two numbered samples of one name are the same file only for the same number. */
  lemma IndexedPathInjective(name: string, i: nat, j: nat)
    requires IndexedPath(name, i) == IndexedPath(name, j)
    ensures i == j
  {
    var prefix := "./samples/" + name + ".";
    var di, dj := Decimal.NatToString(i), Decimal.NatToString(j);
    var s := IndexedPath(name, i);
    assert s == prefix + di + ".png";
    assert s == prefix + dj + ".png";
    assert |di| == |dj|;
    assert s[|prefix|..|prefix| + |di|] == di;
    assert s[|prefix|..|prefix| + |dj|] == dj;
    Decimal.NatToStringInjective(i, j);
  }

  /** One execution looks for each sample file once: no path is tried twice. */
  lemma SamplePathsDistinct(name: string, count: int)
    ensures forall j, k :: 0 <= j < k < |SamplePaths(name, count)| ==>
              SamplePaths(name, count)[j] != SamplePaths(name, count)[k]
  {
    var paths := SamplePaths(name, count);
    forall j, k | 0 <= j < k < |paths|
      ensures paths[j] != paths[k]
    {
      if paths[j] == paths[k] {
        IndexedPathInjective(name, j + 1, k + 1);
      }
    }
  }

  /** How many samples one execution tries, by the `sample_count` given to the
      constructor: a negative count is truthy and stored, and then nothing is tried. */
  lemma SamplesTried(name: string, given: Option<int>)
    ensures |SamplePaths(name, EffectiveSampleCount(given))| ==
              if !Truthy(given) then 1
              else if given.value < 0 then 0
              else given.value
  {
  }

  class ClickScreenContent {
    const sampleName: string
    const sampleCount: int
    /** Set once some execution has clicked a sample; never reset. */
    var successful: bool

    constructor (sampleName: string, sampleCount: Option<int>)
      ensures this.sampleName == sampleName
      ensures this.sampleCount == EffectiveSampleCount(sampleCount)
      ensures !successful
    {
      this.sampleName := sampleName;
      this.successful := false;
      this.sampleCount := EffectiveSampleCount(sampleCount);
    }

    /** `click_sample(file)`: look for one sample on `screen`, the samples whose
        image the screen currently shows, and click it when it is there. */
    method ClickSample(path: string, screen: set<string>) returns (clicked: bool)
      modifies this
      ensures clicked <==> path in screen
      ensures successful == (old(successful) || clicked)
    {
      clicked := path in screen;
      if clicked {
        successful := true;
      }
    }

    /** `execute`: try every sample path, clicking each one found, then raise
        `IndexError(MissingMessage)` unless some execution, this one or an
        earlier one, has clicked. The threads of the source only ever set
        `successful` to true, so running them one after another gives the same
        final state. */
    method Execute(screen: set<string>) returns (outcome: Outcome, clicked: set<string>)
      modifies this
      ensures clicked == Located(SamplePaths(sampleName, sampleCount), screen)
      ensures successful == (old(successful) || clicked != {})
      ensures outcome == if successful then Ok else Fail(MissingMessage)
      ensures old(successful) ==> outcome == Ok
    {
      clicked := {};
      if sampleCount == 1 {
        var path := SinglePath(sampleName);
        var hit := ClickSample(path, screen);
        if hit {
          clicked := {path};
        }
        assert clicked == Located([path], screen);
      } else {
        ghost var paths := SamplePaths(sampleName, sampleCount);
        var i := 1;
        while i <= sampleCount
          invariant 1 <= i <= |paths| + 1
          invariant clicked == Located(paths[..i - 1], screen)
          invariant successful == (old(successful) || clicked != {})
        {
          var path := IndexedPath(sampleName, i);
          assert paths[..i] == paths[..i - 1] + [path];
          var hit := ClickSample(path, screen);
          if hit {
            clicked := clicked + {path};
          }
          i := i + 1;
        }
        assert paths[..i - 1] == paths;
      }
      outcome := if successful then Ok else Fail(MissingMessage);
    }
  }
}
