/**
 The NIC strings of the Proxmox adapter (`firewall-agent/src/proxmox.rs`): a comma-separated
 option list that is isolated by giving it the option `link_down=1`.
 */
module Nic {
  import opened Text

  const LINK_DOWN_PREFIX := "link_down="
  const LINK_DOWN := "link_down=1"

  /** The options kept when the link state is removed: trimmed, non-empty, not `link_down=...`. */
  function KeptOptions(pieces: seq<string>): seq<string> {
    if pieces == [] then []
    else
      var token := Trim(pieces[0]);
      (if token == "" || LINK_DOWN_PREFIX <= token then [] else [token]) + KeptOptions(pieces[1..])
  }

  function StripLinkDown(net0: string): string {
    Join(KeptOptions(Split(net0, ',')), ',')
  }

  predicate IsIsolated(net0: string) {
    exists i :: 0 <= i < |Split(net0, ',')| && Trim(Split(net0, ',')[i]) == LINK_DOWN
  }

  function Isolate(net0: string): string {
    StripLinkDown(net0) + "," + LINK_DOWN
  }

  predicate Clean(token: string) {
    token != "" && Trim(token) == token && ',' !in token && !(LINK_DOWN_PREFIX <= token)
  }

  lemma {:induction false} KeptOptionsClean(pieces: seq<string>)
    requires forall p :: p in pieces ==> ',' !in p
    ensures forall t :: t in KeptOptions(pieces) ==> Clean(t)
  {
    if pieces != [] {
      KeptOptionsClean(pieces[1..]);
      TrimExact(pieces[0]);
      TrimExact(Trim(pieces[0]));
      TrimKeeps(pieces[0], ',');
    }
  }

  lemma TrimKeeps(s: string, c: char)
    requires c !in s
    ensures c !in Trim(s)
  {
    TrimStartKeeps(s, c);
    TrimEndShape(TrimStart(s));
  }

  lemma {:induction false} TrimStartKeeps(s: string, c: char)
    requires c !in s
    ensures c !in TrimStart(s)
  {
    if s != [] && IsSpace(s[0]) { TrimStartKeeps(s[1..], c); }
  }

  lemma {:induction false} KeptOptionsOfClean(tokens: seq<string>)
    requires forall t :: t in tokens ==> Clean(t)
    ensures KeptOptions(tokens) == tokens
  {
    if tokens != [] {
      KeptOptionsOfClean(tokens[1..]);
      assert Clean(tokens[0]);
      assert KeptOptions(tokens) == [tokens[0]] + KeptOptions(tokens[1..]);
    }
  }

  /** The pieces of an isolated NIC: the kept options (or one empty piece) and the link option. */
  lemma IsolatedPieces(net0: string)
    ensures var kept := KeptOptions(Split(net0, ','));
            Split(Isolate(net0), ',') == (if kept == [] then [""] else kept) + [LINK_DOWN]
    ensures forall t :: t in KeptOptions(Split(net0, ',')) ==> Clean(t)
  {
    var kept := KeptOptions(Split(net0, ','));
    SplitPieces(net0, ',');
    KeptOptionsClean(Split(net0, ','));
    LinkDownOption();
    IsolatedSplit(kept);
  }

  lemma IsolatedSplit(kept: seq<string>)
    requires forall t :: t in kept ==> Clean(t)
    ensures Split(Join(kept, ',') + "," + LINK_DOWN, ',') == (if kept == [] then [""] else kept) + [LINK_DOWN]
  {
    LinkDownOption();
    if kept == [] {
      SplitFirst("", ',', LINK_DOWN);
      SplitWhole(LINK_DOWN, ',');
      assert Join(kept, ',') + "," + LINK_DOWN == "" + [','] + LINK_DOWN;
    } else {
      JoinAppend(kept, LINK_DOWN, ',');
      SplitJoin(kept + [LINK_DOWN], ',');
    }
  }

  lemma LinkDownOption()
    ensures ',' !in LINK_DOWN && Trim(LINK_DOWN) == LINK_DOWN && LINK_DOWN_PREFIX <= LINK_DOWN
  {
    TrimExact(LINK_DOWN);
  }

  lemma {:induction false} JoinAppend(parts: seq<string>, last: string, sep: char)
    requires parts != []
    ensures Join(parts + [last], sep) == Join(parts, sep) + [sep] + last
  {
    if |parts| > 1 {
      JoinAppend(parts[1..], last, sep);
      assert (parts + [last])[1..] == parts[1..] + [last];
    } else {
      assert (parts + [last])[1..] == [last];
    }
  }

  /** What the isolating write produces is what the verifying readback looks for. */
  lemma IsolateIsIsolated(net0: string)
    ensures IsIsolated(Isolate(net0))
  {
    IsolatedPieces(net0);
    var pieces := Split(Isolate(net0), ',');
    assert pieces[|pieces| - 1] == LINK_DOWN;
    TrimExact(LINK_DOWN);
  }

  /** A NIC never ends up with a second or a conflicting link option. */
  lemma IsolateIdempotent(net0: string)
    ensures Isolate(Isolate(net0)) == Isolate(net0)
  {
    IsolatedPieces(net0);
    var kept := KeptOptions(Split(net0, ','));
    var head := if kept == [] then [""] else kept;
    KeptOptionsConcat(head, [LINK_DOWN]);
    TrimExact(LINK_DOWN);
    assert KeptOptions([LINK_DOWN]) == [];
    if kept == [] {
      assert KeptOptions([""]) == [];
    } else {
      KeptOptionsOfClean(kept);
    }
    assert KeptOptions(Split(Isolate(net0), ',')) == kept;
  }

  lemma {:induction false} KeptOptionsConcat(a: seq<string>, b: seq<string>)
    ensures KeptOptions(a + b) == KeptOptions(a) + KeptOptions(b)
  {
    if a == [] {
      assert a + b == b;
    } else {
      assert (a + b)[1..] == a[1..] + b;
      KeptOptionsConcat(a[1..], b);
    }
  }

  /** Splitting a string that ends in one more piece. */
  lemma {:induction false} SplitLast(s: string, piece: string)
    requires ',' !in piece
    ensures Split(s + [','] + piece, ',') == Split(s, ',') + [piece]
  {
    var text := s + [','] + piece;
    if s == [] {
      assert text[1..] == piece;
      SplitWhole(piece, ',');
    } else {
      assert text[1..] == s[1..] + [','] + piece;
      SplitLast(s[1..], piece);
    }
  }

  /**
   Any NIC and the same NIC with one more link state of any value have one isolated form: the
   snapshot cannot be recovered from the isolated NIC, so the rollback plan must be stored.
   */
  lemma IsolateForgetsLinkState(net0: string, link: string)
    requires ',' !in link && LINK_DOWN_PREFIX <= Trim(link)
    ensures Isolate(net0 + "," + link) == Isolate(net0)
    ensures IsIsolated(net0 + "," + link) <==> IsIsolated(net0) || Trim(link) == LINK_DOWN
  {
    var pieces := Split(net0, ',');
    assert net0 + "," + link == net0 + [','] + link;
    SplitLast(net0, link);
    KeptOptionsConcat(pieces, [link]);
    assert [link][1..] == [] && KeptOptions([link]) == [];
    assert KeptOptions(pieces + [link]) == KeptOptions(pieces);
    assert Split(net0 + "," + link, ',') == pieces + [link];
    assert StripLinkDown(net0 + "," + link) == StripLinkDown(net0);
    IsolatedByPiece(net0, net0 + "," + link, link);
  }

  lemma IsolatedByPiece(net0: string, more: string, link: string)
    requires Split(more, ',') == Split(net0, ',') + [link]
    ensures IsIsolated(more) <==> IsIsolated(net0) || Trim(link) == LINK_DOWN
  {
    var pieces := Split(net0, ',');
    if IsIsolated(net0) {
      var i :| 0 <= i < |pieces| && Trim(pieces[i]) == LINK_DOWN;
      assert Split(more, ',')[i] == pieces[i];
    }
    assert Split(more, ',')[|pieces|] == link;
    if IsIsolated(more) && Trim(link) != LINK_DOWN {
      var i :| 0 <= i < |pieces| + 1 && Trim(Split(more, ',')[i]) == LINK_DOWN;
      assert pieces[i] == Split(more, ',')[i];
    }
  }

  // --- what isolation keeps -----------------------------------------------------------------

  lemma {:induction false} KeptExactly(pieces: seq<string>, option: string)
    ensures option in KeptOptions(pieces)
            <==>
            && option != "" && !(LINK_DOWN_PREFIX <= option)
            && exists i :: 0 <= i < |pieces| && Trim(pieces[i]) == option
  {
    if pieces != [] {
      KeptExactly(pieces[1..], option);
      if i :| 0 <= i < |pieces| && Trim(pieces[i]) == option {
        if i > 0 { assert pieces[1..][i - 1] == pieces[i]; }
      }
      if i :| 0 <= i < |pieces[1..]| && Trim(pieces[1..][i]) == option { assert pieces[i + 1] == pieces[1..][i]; }
    }
  }

  /**
   Isolation takes away link states only: the options of the isolated NIC are `link_down=1` and exactly
   the other options of the NIC.
   */
  lemma IsolateKeepsOptions(net0: string, option: string)
    requires option != ""
    ensures option in Split(Isolate(net0), ',')
            <==>
            || option == "link_down=1"
            || (!("link_down=" <= option)
                && exists i :: 0 <= i < |Split(net0, ',')| && Trim(Split(net0, ',')[i]) == option)
  {
    IsolatedPieces(net0);
    KeptExactly(Split(net0, ','), option);
  }

  /** A NIC in the form in which Proxmox prints it is kept as it is, with one option more at its end. */
  lemma IsolateAppends(options: seq<string>)
    requires options != []
    requires forall option :: option in options ==>
               option != "" && Trim(option) == option && ',' !in option && !("link_down=" <= option)
    ensures Isolate(Join(options, ',')) == Join(options, ',') + ",link_down=1"
  {
    SplitJoin(options, ',');
    forall option | option in options ensures Clean(option) { }
    KeptOptionsOfClean(options);
    assert StripLinkDown(Join(options, ',')) == Join(options, ',');
  }
}
