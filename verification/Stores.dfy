/** Blocks that are written one after the other. */
module Stores {
  import opened Bytes

  datatype Store = Store(b: nat, data: Block)

  /** Each block is written in place. */
  function Replay(disk: seq<Block>, ws: seq<Store>): (r: seq<Block>)
    ensures |r| == |disk|
    decreases |ws|
  {
    if ws == [] then disk else
      var d, w := Replay(disk, ws[..|ws| - 1]), ws[|ws| - 1];
      if w.b < |d| then d[w.b := w.data] else d
  }

  /** What is written in the end: of several writes to a block the last one counts. */
  function Contents(ws: seq<Store>): map<nat, Block>
    decreases |ws|
  {
    if ws == [] then map[] else Contents(ws[..|ws| - 1])[ws[|ws| - 1].b := ws[|ws| - 1].data]
  }

  lemma {:induction false} ReplayAppend(disk: seq<Block>, ws: seq<Store>, w: Store)
    requires w.b < |disk|
    ensures Replay(disk, ws + [w]) == Replay(disk, ws)[w.b := w.data]
  {
    assert (ws + [w])[..|ws|] == ws;
  }

  lemma {:induction false} ReplayConcat(disk: seq<Block>, xs: seq<Store>, ys: seq<Store>)
    ensures Replay(disk, xs + ys) == Replay(Replay(disk, xs), ys)
    decreases |ys|
  {
    if ys == [] {
      assert xs + ys == xs;
    } else {
      assert (xs + ys)[..|xs + ys| - 1] == xs + ys[..|ys| - 1];
      ReplayConcat(disk, xs, ys[..|ys| - 1]);
    }
  }

  lemma {:induction false} ContentsAppend(ws: seq<Store>, w: Store)
    ensures Contents(ws + [w]) == Contents(ws)[w.b := w.data]
  {
    assert (ws + [w])[..|ws|] == ws;
  }

  lemma {:induction false} ContentsEmpty(ws: seq<Store>)
    ensures Contents(ws).Keys == {} <==> ws == []
  {
    if ws != [] {
      assert ws[|ws| - 1].b in Contents(ws).Keys;
    }
  }

  lemma {:induction false} ContentsKeys(ws: seq<Store>, b: nat)
    ensures b in Contents(ws) <==> exists i :: 0 <= i < |ws| && ws[i].b == b
    decreases |ws|
  {
    if ws != [] {
      var n := |ws| - 1;
      ContentsKeys(ws[..n], b);
      if ws[n].b == b {
      } else if b in Contents(ws[..n]) {
        var i :| 0 <= i < |ws[..n]| && ws[..n][i].b == b;
        assert ws[i].b == b;
      } else if i :| 0 <= i < |ws| && ws[i].b == b {
        assert ws[..n][i].b == b;
      }
    }
  }

  /** The blocks written. */
  function Blocks(ws: seq<Store>): set<nat> {
    set w | w in ws :: w.b
  }

  function ReplayAll(disk: seq<Block>, txns: seq<seq<Store>>): (r: seq<Block>)
    ensures |r| == |disk|
    decreases |txns|
  {
    if txns == [] then disk else Replay(ReplayAll(disk, txns[..|txns| - 1]), txns[|txns| - 1])
  }

  lemma {:induction false} ReplayAllAppend(disk: seq<Block>, txns: seq<seq<Store>>, ws: seq<Store>)
    ensures ReplayAll(disk, txns + [ws]) == Replay(ReplayAll(disk, txns), ws)
  {
    assert (txns + [ws])[..|txns|] == txns;
  }
}
