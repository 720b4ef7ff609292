/**
 * The category gate of lib/logger.ts. A key such as "ORBS:ERROR" is split
 * on ":"; the message is printed when no category list is configured or
 * when one of the key's segments is in the list. Only the decision is
 * modelled, not the console output.
 */
module Logger {
  import opened Wrappers
  import opened Text

  /** The categories the shipped logger lets through (`activeKeys`). */
  const ActiveKeys: Option<seq<string>> := Some(["MERGE", "ORBS"])

  /** Some element of `a` is an element of `b` (whole-string equality). */
  predicate Overlapping(a: seq<string>, b: seq<string>)
  {
    exists i :: 0 <= i < |a| && a[i] in b
  }

  /** `overlaps(a, b)`: scan `a` and stop at the first element that `b` includes. */
  method Overlaps(a: seq<string>, b: seq<string>) returns (r: bool)
    ensures r <==> Overlapping(a, b)
  {
    for k := 0 to |a|
      invariant forall i :: 0 <= i < k ==> a[i] !in b
    {
      if a[k] in b {
        return true;
      }
    }
    return false;
  }

  /** What `log` decides for a key under a category list (`None` for `undefined`). */
  predicate Shows(key: string, activeKeys: Option<seq<string>>)
  {
    activeKeys.None? || Overlapping(Split(key, ':'), activeKeys.value)
  }

  /** `logger.log`: whether the message is printed. */
  method Log(key: string, activeKeys: Option<seq<string>>) returns (printed: bool)
    ensures printed <==> Shows(key, activeKeys)
  {
    if activeKeys.Some? {
      var hit := Overlaps(Split(key, ':'), activeKeys.value);
      if !hit {
        return false;
      }
    }
    return true;
  }

  /** No overlap when either list is empty. */
  lemma EmptyNeverOverlaps(a: seq<string>, b: seq<string>)
    requires a == [] || b == []
    ensures !Overlapping(a, b)
  {
  }

  /** A key is printed iff one of its segments is a configured category. */
  lemma ShowsIffSegment(key: string, categories: seq<string>)
    ensures Shows(key, Some(categories)) <==> exists s :: s in Split(key, ':') && s in categories
  {
    var parts := Split(key, ':');
    if exists s :: s in parts && s in categories {
      var s :| s in parts && s in categories;
      var i :| 0 <= i < |parts| && parts[i] == s;
      assert parts[i] in categories;
    }
  }

  /** With no category list, every key is printed. */
  lemma UndefinedShowsAll(key: string)
    ensures Shows(key, None)
  {
  }

  /** A two-segment key splits into its two segments. */
  lemma TwoSegments(first: string, second: string)
    requires ':' !in first && ':' !in second
    ensures Split(first + [':'] + second, ':') == [first, second]
  {
    SplitConcat(first, second, ':');
    SplitPlain(first, ':');
    SplitPlain(second, ':');
  }

  /** "ORBS:ERROR" passes the shipped gate through its first segment. */
  lemma OrbsErrorShown()
    ensures Shows("ORBS:ERROR", ActiveKeys)
  {
    assert "ORBS:ERROR" == "ORBS" + [':'] + "ERROR";
    TwoSegments("ORBS", "ERROR");
    assert Split("ORBS:ERROR", ':')[0] in ActiveKeys.value;
  }

  /** "INFO:APPLY" is suppressed by the shipped gate. */
  lemma InfoApplySuppressed()
    ensures !Shows("INFO:APPLY", ActiveKeys)
  {
    assert "INFO:APPLY" == "INFO" + [':'] + "APPLY";
    TwoSegments("INFO", "APPLY");
    var parts := ["INFO", "APPLY"];
    assert parts[0] !in ActiveKeys.value && parts[1] !in ActiveKeys.value;
  }

  /** Segments match whole: "ORB" is not the category "ORBS". */
  lemma WholeSegmentMatch()
    ensures !Shows("ORB", ActiveKeys)
  {
    SplitPlain("ORB", ':');
    assert "ORB" != "ORBS" && "ORB" != "MERGE";
  }
}
