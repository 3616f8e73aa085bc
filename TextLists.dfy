/**
 * The comma-separated list inputs of the profile forms: a list is shown as
 * its items joined with `", "` and read back with
 * `text.split(',').map(x => x.trim()).filter(Boolean)`
 * (components/pages/CompleteProfile.tsx and components/EditProfileModal.tsx).
 */
module TextLists {
  import opened Js

  /** `.map(x => x.trim())` */
  function TrimAll(parts: seq<string>): (r: seq<string>)
    ensures |r| == |parts|
    ensures forall k :: 0 <= k < |r| ==> r[k] == Trim(parts[k])
  {
    Map(parts, Trim)
  }

  /** `.filter(Boolean)` on strings. */
  predicate NonEmpty(s: string) {
    s != ""
  }

  /** An item the input can hold: not empty, no comma, no white space at
      either end. */
  predicate IsItem(x: string) {
    x != "" && ',' !in x && !IsSpace(x[0]) && !IsSpace(x[|x| - 1])
  }

  /** The trimmed text of a comma-free part, when not empty, is an item. */
  lemma TrimmedPart(s: string)
    requires ',' !in s && Trim(s) != ""
    ensures IsItem(Trim(s))
  {
    var h := TrimStart(s);
    var t := TrimEnd(h);
    forall k | 0 <= k < |t| ensures t[k] != ',' {
      assert t[k] == h[k] == s[|s| - |h| + k];
    }
  }

  /** The list a text input stands for. */
  function ParseList(text: string): seq<string> {
    Filter(TrimAll(Split(text, ',')), NonEmpty)
  }

  lemma TrimmedParts(parts: seq<string>)
    requires forall k :: 0 <= k < |parts| ==> ',' !in parts[k]
    ensures forall x :: x in Filter(TrimAll(parts), NonEmpty) ==> IsItem(x)
  {
    var t := TrimAll(parts);
    FilterMembers(t, NonEmpty);
    forall x | x in Filter(t, NonEmpty) ensures IsItem(x) {
      var j :| 0 <= j < |t| && t[j] == x;
      TrimmedPart(parts[j]);
    }
  }

  /** Every element of a parsed list is an item. */
  lemma ParseListItems(text: string)
    ensures forall k :: 0 <= k < |ParseList(text)| ==> IsItem(ParseList(text)[k])
  {
    TrimmedParts(Split(text, ','));
  }

  // ---------------------------------------------------------------------------
  // Round trip

  lemma {:induction false} SplitAfter(a: string, b: string, c: char)
    requires c !in a
    ensures Split(a + [c] + b, c) == [a] + Split(b, c)
  {
    if a == [] {
      assert a + [c] + b == [c] + b;
      assert ([c] + b)[1..] == b;
    } else {
      var s := a + [c] + b;
      assert s[0] == a[0] && s[1..] == a[1..] + [c] + b;
      SplitAfter(a[1..], b, c);
      assert [a[0]] + a[1..] == a;
    }
  }

  lemma {:induction false} SplitJoined(ys: seq<string>, c: char)
    requires |ys| >= 1
    requires forall k :: 0 <= k < |ys| ==> c !in ys[k]
    ensures Split(Join(ys, [c]), c) == ys
  {
    if |ys| == 1 {
      SplitNoSeparator(ys[0], c);
    } else {
      SplitJoined(ys[1..], c);
      SplitAfter(ys[0], Join(ys[1..], [c]), c);
      assert [ys[0]] + ys[1..] == ys;
    }
  }

  lemma {:induction false} SplitNoSeparator(a: string, c: char)
    requires c !in a
    ensures Split(a, c) == [a]
  {
    if a != [] {
      SplitNoSeparator(a[1..], c);
      assert [a[0]] + a[1..] == a;
    }
  }

  /** The items after the first, each with the space the `", "` join puts
      in front of it. */
  function Spaced(xs: seq<string>): (r: seq<string>)
    ensures |r| == |xs|
  {
    if |xs| <= 1 then xs else [xs[0]] + seq(|xs| - 1, k requires 0 <= k < |xs| - 1 => " " + xs[k + 1])
  }

  lemma {:induction false} JoinSpaced(xs: seq<string>)
    ensures Join(xs, ", ") == Join(Spaced(xs), ",")
    ensures forall k :: 1 <= k < |xs| ==> Spaced(xs)[k] == " " + xs[k]
    ensures |xs| >= 1 ==> Spaced(xs)[0] == xs[0]
  {
    if |xs| >= 2 {
      JoinSpaced(xs[1..]);
      var s := Spaced(xs);
      var t := Spaced(xs[1..]);
      assert s[1..] == [" " + xs[1]] + t[1..];
      if |xs| == 2 {
        assert Join(s[1..], ",") == " " + xs[1];
      } else {
        assert Join(s[1..], ",") == " " + xs[1] + "," + Join(t[1..], ",");
        assert Join(t, ",") == xs[1] + "," + Join(t[1..], ",");
      }
    }
  }

  lemma TrimItem(x: string)
    requires IsItem(x)
    ensures Trim(x) == x && Trim(" " + x) == x
  {
    TrimStartUnspaced(x);
    TrimStartAfterSpace(x);
    TrimEndUnspaced(x);
  }

  /** Showing a list of items as `", "`-joined text and reading it back
      gives the list again. */
  lemma ParseJoined(xs: seq<string>)
    requires forall k :: 0 <= k < |xs| ==> IsItem(xs[k])
    ensures ParseList(Join(xs, ", ")) == xs
  {
    if xs == [] {
      assert Split("", ',') == [""];
      assert TrimAll([""]) == [Trim("")];
    } else {
      JoinSpaced(xs);
      SpacedNoComma(xs);
      SplitJoined(Spaced(xs), ',');
      TrimSpaced(xs);
      FilterAll(xs, NonEmpty);
    }
  }

  lemma SpacedNoComma(xs: seq<string>)
    requires forall k :: 0 <= k < |xs| ==> IsItem(xs[k])
    ensures forall k :: 0 <= k < |xs| ==> ',' !in Spaced(xs)[k]
  {
    JoinSpaced(xs);
    var s := Spaced(xs);
    forall k | 0 <= k < |s| ensures ',' !in s[k] {
      if k > 0 {
        assert s[k] == " " + xs[k];
      }
    }
  }

  lemma TrimSpaced(xs: seq<string>)
    requires forall k :: 0 <= k < |xs| ==> IsItem(xs[k])
    ensures TrimAll(Spaced(xs)) == xs
  {
    JoinSpaced(xs);
    var s := Spaced(xs);
    forall k | 0 <= k < |s| ensures Trim(s[k]) == xs[k] {
      TrimItem(xs[k]);
    }
  }

  /** A text that shows a list of items reads back as that list. */
  lemma ParseShown(text: string, xs: seq<string>)
    requires text == Join(xs, ", ")
    requires forall k :: 0 <= k < |xs| ==> IsItem(xs[k])
    ensures ParseList(text) == xs
  {
    ParseJoined(xs);
  }

  /** Reading, showing and reading again gives what the first reading gave. */
  lemma ParseShowParse(text: string)
    ensures ParseList(Join(ParseList(text), ", ")) == ParseList(text)
  {
    ParseListItems(text);
    ParseJoined(ParseList(text));
  }
}
