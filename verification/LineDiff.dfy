// The line diff of the prompt editor (src/components/admin/prompts-manager.tsx):
// the longest common run of lines at the top, then at the bottom, is kept; all
// between is removed and added.
module LineDiff {
  import Text

  datatype Kind = Same | Added | Removed
  datatype DiffLine = DiffLine(kind: Kind, text: string)

  function Marked(kind: Kind, lines: seq<string>): (d: seq<DiffLine>)
    ensures |d| == |lines|
    ensures forall i | 0 <= i < |d| :: d[i] == DiffLine(kind, lines[i])
  {
    seq(|lines|, i requires 0 <= i < |lines| => DiffLine(kind, lines[i]))
  }

  // The lines of the given kinds, in order.
  function Read(d: seq<DiffLine>, kinds: set<Kind>): seq<string> {
    if d == [] then []
    else (if d[0].kind in kinds then [d[0].text] else []) + Read(d[1..], kinds)
  }

  lemma {:induction false} ReadConcat(a: seq<DiffLine>, b: seq<DiffLine>, kinds: set<Kind>)
    ensures Read(a + b, kinds) == Read(a, kinds) + Read(b, kinds)
  {
    if a == [] {
      assert a + b == b;
    } else {
      ReadConcat(a[1..], b, kinds);
      assert (a + b)[1..] == a[1..] + b && (a + b)[0] == a[0];
      var first := if a[0].kind in kinds then [a[0].text] else [];
      assert first + (Read(a[1..], kinds) + Read(b, kinds)) == first + Read(a[1..], kinds) + Read(b, kinds);
    }
  }

  lemma {:induction false} ReadMarked(kind: Kind, lines: seq<string>, kinds: set<Kind>)
    ensures Read(Marked(kind, lines), kinds) == if kind in kinds then lines else []
  {
    if lines != [] {
      assert Marked(kind, lines)[1..] == Marked(kind, lines[1..]);
      ReadMarked(kind, lines[1..], kinds);
    }
  }

  // A kept top, a removed block, an added block and a kept bottom.
  function Assembled(top: seq<string>, removed: seq<string>, added: seq<string>, bottom: seq<string>): seq<DiffLine> {
    Marked(Same, top) + Marked(Removed, removed) + Marked(Added, added) + Marked(Same, bottom)
  }

  lemma AssembledReads(top: seq<string>, removed: seq<string>, added: seq<string>, bottom: seq<string>,
                       kinds: set<Kind>)
    ensures Read(Assembled(top, removed, added, bottom), kinds)
         == (if Same in kinds then top else []) + (if Removed in kinds then removed else [])
            + (if Added in kinds then added else []) + (if Same in kinds then bottom else [])
  {
    var a, b, c, d := Marked(Same, top), Marked(Removed, removed), Marked(Added, added), Marked(Same, bottom);
    ReadConcat(a + b + c, d, kinds);
    ReadConcat(a + b, c, kinds);
    ReadConcat(a, b, kinds);
    ReadMarked(Same, top, kinds);
    ReadMarked(Removed, removed, kinds);
    ReadMarked(Added, added, kinds);
    ReadMarked(Same, bottom, kinds);
  }

  // Two blocks that differ where they begin and where they end.
  predicate Apart(removed: seq<string>, added: seq<string>) {
    removed != [] && added != [] ==>
      removed[0] != added[0] && removed[|removed| - 1] != added[|added| - 1]
  }

  predicate HasChanges(d: seq<DiffLine>) {
    exists i | 0 <= i < |d| :: d[i].kind != Same
  }

  lemma OneMoreAtTop(before: seq<string>, after: seq<string>, n: nat)
    requires n < |before| && n < |after| && before[..n] == after[..n] && before[n] == after[n]
    ensures before[..n + 1] == after[..n + 1]
  {
    assert before[..n + 1] == before[..n] + [before[n]] && after[..n + 1] == after[..n] + [after[n]];
  }

  lemma OneMoreAtBottom(before: seq<string>, after: seq<string>, n: nat)
    requires n < |before| && n < |after| && before[|before| - n..] == after[|after| - n..]
    requires before[|before| - 1 - n] == after[|after| - 1 - n]
    ensures before[|before| - (n + 1)..] == after[|after| - (n + 1)..]
  {
    assert before[|before| - (n + 1)..] == [before[|before| - 1 - n]] + before[|before| - n..];
    assert after[|after| - (n + 1)..] == [after[|after| - 1 - n]] + after[|after| - n..];
  }

  method BuildPromptLineDiff(previous: string, current: string)
      returns (diff: seq<DiffLine>,
               ghost top: seq<string>, ghost removed: seq<string>, ghost added: seq<string>, ghost bottom: seq<string>)
    // the kept and removed lines spell the old text, the kept and added lines the new one
    ensures Text.Join(Read(diff, {Same, Removed}), "\n") == previous
    ensures Text.Join(Read(diff, {Same, Added}), "\n") == current
    // one removed block and one added block, which share neither first nor last line
    ensures diff == Assembled(top, removed, added, bottom) && Apart(removed, added)
    // no changes exactly when there are none
    ensures !HasChanges(diff) <==> previous == current
  {
    var before := Text.Split(previous, '\n');
    var after := Text.Split(current, '\n');
    var prefix := 0;
    while prefix < |before| && prefix < |after| && before[prefix] == after[prefix]
      invariant prefix <= |before| && prefix <= |after|
      invariant before[..prefix] == after[..prefix]
    {
      OneMoreAtTop(before, after, prefix);
      prefix := prefix + 1;
    }
    var suffix := 0;
    while suffix < |before| - prefix && suffix < |after| - prefix
          && before[|before| - 1 - suffix] == after[|after| - 1 - suffix]
      invariant suffix <= |before| - prefix && suffix <= |after| - prefix
      invariant before[|before| - suffix..] == after[|after| - suffix..]
    {
      OneMoreAtBottom(before, after, suffix);
      suffix := suffix + 1;
    }
    diff := Marked(Same, before[..prefix])
          + Marked(Removed, before[prefix..|before| - suffix])
          + Marked(Added, after[prefix..|after| - suffix])
          + Marked(Same, if suffix > 0 then after[|after| - suffix..] else []);

    top, removed, added, bottom := before[..prefix], before[prefix..|before| - suffix],
                                   after[prefix..|after| - suffix], after[|after| - suffix..];
    assert suffix == 0 ==> bottom == [];
    BlocksStandApart(before, after, prefix, suffix);
    SpellsBoth(previous, current, top, removed, added, bottom);
  }

  // No line more can be kept, at the top or at the bottom.
  lemma BlocksStandApart(before: seq<string>, after: seq<string>, prefix: nat, suffix: nat)
    requires prefix + suffix <= |before| && prefix + suffix <= |after|
    requires before[..prefix] == after[..prefix]
    requires before[|before| - suffix..] == after[|after| - suffix..]
    requires prefix < |before| && prefix < |after| ==> before[prefix] != after[prefix]
    requires suffix < |before| - prefix && suffix < |after| - prefix ==>
      before[|before| - 1 - suffix] != after[|after| - 1 - suffix]
    ensures var top, bottom := before[..prefix], after[|after| - suffix..];
            var removed, added := before[prefix..|before| - suffix], after[prefix..|after| - suffix];
            && before == top + removed + bottom
            && after == top + added + bottom
            && Apart(removed, added)
  {
    ThreeSlices(before, prefix, |before| - suffix);
    ThreeSlices(after, prefix, |after| - suffix);
  }

  lemma ThreeSlices(lines: seq<string>, i: nat, j: nat)
    requires i <= j <= |lines|
    ensures lines == lines[..i] + lines[i..j] + lines[j..]
  {
    assert lines[..j] == lines[..i] + lines[i..j];
  }

  lemma SpellsBoth(previous: string, current: string,
                   top: seq<string>, removed: seq<string>, added: seq<string>, bottom: seq<string>)
    requires Text.Split(previous, '\n') == top + removed + bottom
    requires Text.Split(current, '\n') == top + added + bottom
    requires Apart(removed, added)
    ensures var diff := Assembled(top, removed, added, bottom);
            && Text.Join(Read(diff, {Same, Removed}), "\n") == previous
            && Text.Join(Read(diff, {Same, Added}), "\n") == current
            && (!HasChanges(diff) <==> previous == current)
  {
    ReadsBoth(top, removed, added, bottom);
    Text.JoinSplit(previous, '\n');
    Text.JoinSplit(current, '\n');
    ChangesAreTheMiddle(top, removed, added, bottom);
    Text.SplitInjective(previous, current, '\n');
  }

  lemma ReadsBoth(top: seq<string>, removed: seq<string>, added: seq<string>, bottom: seq<string>)
    ensures Read(Assembled(top, removed, added, bottom), {Same, Removed}) == top + removed + bottom
    ensures Read(Assembled(top, removed, added, bottom), {Same, Added}) == top + added + bottom
  {
    AssembledReads(top, removed, added, bottom, {Same, Removed});
    AssembledReads(top, removed, added, bottom, {Same, Added});
    assert top + removed + [] == top + removed && top + [] == top;
  }

  lemma ChangesAreTheMiddle(top: seq<string>, removed: seq<string>, added: seq<string>, bottom: seq<string>)
    requires Apart(removed, added)
    ensures !HasChanges(Assembled(top, removed, added, bottom)) <==> top + removed + bottom == top + added + bottom
  {
    var d := Assembled(top, removed, added, bottom);
    var was, now := top + removed + bottom, top + added + bottom;
    if removed == [] && added == [] {
      forall i | 0 <= i < |d| ensures d[i].kind == Same { }
    } else {
      assert d[|top|].kind != Same;
      if |removed| == |added| {
        assert was[|top|] == removed[0] && now[|top|] == added[0];
      } else {
        assert |was| != |now|;
      }
    }
  }
}
