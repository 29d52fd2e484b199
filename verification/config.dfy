/** Two small rules of the shared helpers: splitting a `;`-separated user list,
    and checking that the site's configuration names are all filled in. */
module Config {
  import opened Wrappers
  import opened Text

  /** A Python value as these helpers see it: a string, or anything else with
      its truth value. */
  datatype Value = Str(s: string) | Other(truthy: bool)

  /** The stripped, non-empty pieces, in order. */
  function Clean(pieces: seq<string>): (r: seq<string>)
    ensures |r| <= |pieces|
  {
    if pieces == [] then []
    else
      var head := Strip(pieces[0]);
      if head != "" then [head] + Clean(pieces[1..]) else Clean(pieces[1..])
  }

  /** Every piece `Clean` keeps is non-empty and stripped. */
  lemma {:induction false} CleanPiecesStripped(pieces: seq<string>)
    ensures forall u :: u in Clean(pieces) ==> u != "" && Stripped(u)
  {
    if pieces != [] {
      var h := Strip(pieces[0]);
      var rest := Clean(pieces[1..]);
      CleanPiecesStripped(pieces[1..]);
      assert Clean(pieces) == if h != "" then [h] + rest else rest;
      assert h != "" ==> Stripped(h);
    }
  }

  /** `Clean` introduces no character that no piece had. */
  lemma {:induction false} CleanKeepsOut(pieces: seq<string>, c: char)
    requires forall p :: p in pieces ==> c !in p
    ensures forall u :: u in Clean(pieces) ==> c !in u
  {
    if pieces != [] {
      assert pieces[0] in pieces;
      StripKeepsOut(pieces[0], c);
      assert forall p :: p in pieces[1..] ==> p in pieces;
      CleanKeepsOut(pieces[1..], c);
    }
  }

  /** The indices from `i` on of the pieces that are not blank, in increasing order. */
  function KeptFrom(pieces: seq<string>, i: nat): (idx: seq<nat>)
    requires i <= |pieces|
    ensures forall k :: 0 <= k < |idx| ==> i <= idx[k] < |pieces| && !Blank(pieces[idx[k]])
    ensures forall k, l :: 0 <= k < l < |idx| ==> idx[k] < idx[l]
    decreases |pieces| - i
  {
    if i == |pieces| then []
    else (if !Blank(pieces[i]) then [i] else []) + KeptFrom(pieces, i + 1)
  }

  /** No non-blank piece from `i` on is left out. */
  lemma {:induction false} KeptFromCovers(pieces: seq<string>, i: nat)
    requires i <= |pieces|
    ensures forall j :: i <= j < |pieces| && !Blank(pieces[j]) ==> j in KeptFrom(pieces, i)
    decreases |pieces| - i
  {
    if i < |pieces| {
      KeptFromCovers(pieces, i + 1);
    }
  }

  lemma {:induction false} CleanFrom(pieces: seq<string>, i: nat)
    requires i <= |pieces|
    ensures |Clean(pieces[i..])| == |KeptFrom(pieces, i)|
    ensures forall k :: 0 <= k < |KeptFrom(pieces, i)| ==>
      Clean(pieces[i..])[k] == Strip(pieces[KeptFrom(pieces, i)[k]])
    decreases |pieces| - i
  {
    if i < |pieces| {
      CleanFrom(pieces, i + 1);
      var h := Strip(pieces[i]);
      assert Clean(pieces[i..]) == (if h != "" then [h] else []) + Clean(pieces[i + 1..]) by {
        assert pieces[i..] == [pieces[i]] + pieces[i + 1..];
        CleanCons(pieces[i], pieces[i + 1..]);
      }
      var f := (j: nat) => if j < |pieces| then Strip(pieces[j]) else "";
      IndexedCons(f, i, h != "", Clean(pieces[i..]), KeptFrom(pieces, i),
                  Clean(pieces[i + 1..]), KeptFrom(pieces, i + 1));
    }
  }

  /** A list read off at increasing indices, with one more index in front. */
  lemma {:induction false} IndexedCons<T>(f: nat -> T, i: nat, keep: bool, c: seq<T>, idx: seq<nat>, c2: seq<T>, idx2: seq<nat>)
    requires c == (if keep then [f(i)] else []) + c2
    requires idx == (if keep then [i] else []) + idx2
    requires |c2| == |idx2| && forall k :: 0 <= k < |idx2| ==> c2[k] == f(idx2[k])
    ensures |c| == |idx| && forall k :: 0 <= k < |idx| ==> c[k] == f(idx[k])
  {
    if keep {
      forall k | 0 < k < |idx| ensures c[k] == f(idx[k]) {
        assert c[k] == c2[k - 1] && idx[k] == idx2[k - 1];
      }
    }
  }

  /** `Clean` keeps every non-blank piece, stripped, in order: the k-th result
      is the k-th non-blank piece. */
  lemma CleanInOrder(pieces: seq<string>)
    ensures |Clean(pieces)| == |KeptFrom(pieces, 0)|
    ensures forall k :: 0 <= k < |Clean(pieces)| ==>
      Clean(pieces)[k] == Strip(pieces[KeptFrom(pieces, 0)[k]])
  {
    CleanFrom(pieces, 0);
    assert pieces[0..] == pieces;
  }

  /** One piece in front: kept, stripped, exactly when it is not blank. */
  lemma {:induction false} CleanCons(p: string, rest: seq<string>)
    ensures Clean([p] + rest) == (if Strip(p) != "" then [Strip(p)] else []) + Clean(rest)
  {
    assert ([p] + rest)[1..] == rest;
  }

  /** A blank value has no semicolon, so it is one blank piece. */
  lemma {:induction false} BlankIsOnePiece(s: string)
    requires Blank(s)
    ensures Split(s, ';') == [s] && KeptFrom([s], 0) == []
  {
    assert ';' !in s by {
      forall k | 0 <= k < |s| ensures s[k] != ';' { assert IsSpace(s[k]); }
    }
    assert IndexOf(s, ';') == |s|;
  }

  /** `split_user`: a non-string or blank value gives no users; otherwise the
      stripped, non-empty pieces between semicolons, in order. */
  function SplitUser(users: Value): (r: seq<string>)
    ensures !users.Str? || Blank(users.s) ==> r == []
    ensures forall u :: u in r ==> u != "" && Stripped(u) && ';' !in u
    ensures users.Str? ==>
      var pieces := Split(users.s, ';');
      |r| == |KeptFrom(pieces, 0)| &&
      forall k :: 0 <= k < |r| ==> r[k] == Strip(pieces[KeptFrom(pieces, 0)[k]])
  {
    if users.Str? && Strip(users.s) != "" then
      var pieces := Split(users.s, ';');
      CleanPiecesStripped(pieces);
      CleanKeepsOut(pieces, ';');
      CleanInOrder(pieces);
      Clean(pieces)
    else if users.Str? then
      BlankIsOnePiece(users.s);
      []
    else []
  }

  /** The usual input: `"alice; bob"` names alice and then bob. */
  lemma AliceThenBob()
    ensures SplitUser(Str("alice; bob")) == ["alice", "bob"]
  {
    assert !Blank("alice; bob") by { assert !IsSpace("alice; bob"[0]); }
    SplitUserCleans("alice; bob");
    AliceBobPieces();
    AliceBobCleaned();
  }

  lemma {:induction false} SplitUserCleans(s: string)
    requires !Blank(s)
    ensures SplitUser(Str(s)) == Clean(Split(s, ';'))
  {
  }

  lemma {:induction false} AliceBobPieces()
    ensures Split("alice; bob", ';') == ["alice", " bob"]
  {
    assert "alice; bob" == "alice" + ";" + " bob";
    SplitFirst("alice", " bob");
    SplitWhole(" bob");
  }

  lemma {:induction false} AliceBobCleaned()
    ensures Clean(["alice", " bob"]) == ["alice", "bob"]
  {
    assert Strip(" bob") == "bob" by { LeadingSpace("bob"); assert [' '] + "bob" == " bob"; }
    assert Strip("alice") == "alice" by { StrippedIsFixed("alice"); }
    CleanPair("alice", " bob");
  }

  /** Two pieces that are both kept. */
  lemma {:induction false} CleanPair(p: string, q: string)
    requires Strip(p) != "" && Strip(q) != ""
    ensures Clean([p, q]) == [Strip(p), Strip(q)]
  {
    assert Clean([q]) == [Strip(q)] by {
      assert [q] == [q] + [];
      CleanCons(q, []);
    }
    assert Clean([p, q]) == [Strip(p)] + Clean([q]) by {
      assert [p, q] == [p] + [q];
      CleanCons(p, [q]);
    }
  }

  /** One leading space is stripped off a name that is otherwise clean. */
  lemma {:induction false} LeadingSpace(u: string)
    requires u != [] && Stripped(u)
    ensures Strip([' '] + u) == u
  {
    assert ([' '] + u)[1..] == u;
    assert TrimLeft(u) == u;
    assert TrimLeft([' '] + u) == u;
    assert TrimRight(u) == u;
  }

  /** A clean user name: non-empty, already stripped, and free of semicolons. */
  predicate CleanName(u: string) {
    u != "" && Stripped(u) && ';' !in u
  }

  /** Joining names that have no semicolon and splitting again gives them back. */
  lemma {:induction false} SplitJoinNames(names: seq<string>)
    requires names != []
    requires forall u :: u in names ==> ';' !in u
    ensures Split(Join(names, ";"), ';') == names
  {
    assert names[0] in names;
    if |names| == 1 {
      SplitWhole(names[0]);
    } else {
      var rest := names[1..];
      assert forall u :: u in rest ==> u in names;
      SplitJoinNames(rest);
      SplitFirst(names[0], Join(rest, ";"));
      assert names == [names[0]] + rest;
    }
  }

  /** Text without a semicolon splits into itself. */
  lemma SplitWhole(n: string)
    requires ';' !in n
    ensures Split(n, ';') == [n]
  {
    assert IndexOf(n, ';') == |n|;
  }

  /** Text without a semicolon, a semicolon, and more: the first piece is that text. */
  lemma SplitFirst(n: string, t: string)
    requires ';' !in n
    ensures Split(n + ";" + t, ';') == [n] + Split(t, ';')
  {
    var s := n + ";" + t;
    assert forall k :: 0 <= k < |n| ==> s[k] == n[k];
    assert s[|n|] == ';';
    assert IndexOf(s, ';') == |n|;
    assert s[..|n|] == n;
    assert s[|n| + 1..] == t;
  }

  lemma {:induction false} CleanKeepsCleanNames(names: seq<string>)
    requires forall u :: u in names ==> CleanName(u)
    ensures Clean(names) == names
  {
    if names != [] {
      assert forall u :: u in names[1..] ==> u in names;
      assert names[0] in names;
      StrippedIsFixed(names[0]);
      CleanKeepsCleanNames(names[1..]);
    }
  }

  /** The round trip: clean names joined with semicolons split back into the
      same names. */
  lemma SplitUserRoundTrip(names: seq<string>)
    requires forall u :: u in names ==> CleanName(u)
    ensures SplitUser(Str(Join(names, ";"))) == names
  {
    if names == [] {
      assert Join(names, ";") == "";
    } else {
      var s := Join(names, ";");
      assert forall u :: u in names ==> ';' !in u;
      SplitJoinNames(names);
      assert !Blank(s) by {
        assert names[0] in names;
        assert !IsSpace(names[0][0]);
        if |names| > 1 {
          assert s == names[0] + ";" + Join(names[1..], ";");
        }
        assert s[0] == names[0][0];
      }
      CleanKeepsCleanNames(names);
    }
  }

  /** Whether a configuration value counts as missing: falsy, or a blank string. */
  predicate Missing(v: Value) {
    (v.Other? && !v.truthy) || (v.Str? && Blank(v.s))
  }

  /** Setting `n` is listed in `configs` with a missing value. */
  predicate ListedMissing(configs: seq<(string, Value)>, n: string) {
    exists i :: 0 <= i < |configs| && configs[i].0 == n && Missing(configs[i].1)
  }

  /** The names whose values are missing, in the given order. */
  function MissingNames(configs: seq<(string, Value)>): (r: seq<string>)
    ensures |r| <= |configs|
    ensures r == [] <==> forall i :: 0 <= i < |configs| ==> !Missing(configs[i].1)
    ensures forall n :: n in r <==> ListedMissing(configs, n)
  {
    if configs == [] then []
    else
      var rest := MissingNames(configs[1..]);
      assert forall i :: 1 <= i < |configs| ==> configs[i] == configs[1..][i - 1];
      assert forall n :: ListedMissing(configs[1..], n) ==> ListedMissing(configs, n) by {
        forall n | ListedMissing(configs[1..], n) ensures ListedMissing(configs, n) {
          var i :| 0 <= i < |configs[1..]| && configs[1..][i].0 == n && Missing(configs[1..][i].1);
          assert configs[i + 1] == configs[1..][i];
        }
      }
      (if Missing(configs[0].1) then [configs[0].0] else []) + rest
  }

  /** The indices from `i` on whose values are missing, in increasing order. */
  function MissingFrom(configs: seq<(string, Value)>, i: nat): (idx: seq<nat>)
    requires i <= |configs|
    ensures forall k :: 0 <= k < |idx| ==> i <= idx[k] < |configs| && Missing(configs[idx[k]].1)
    ensures forall k, l :: 0 <= k < l < |idx| ==> idx[k] < idx[l]
    ensures forall j :: i <= j < |configs| && Missing(configs[j].1) ==> j in idx
    decreases |configs| - i
  {
    if i == |configs| then []
    else (if Missing(configs[i].1) then [i] else []) + MissingFrom(configs, i + 1)
  }

  lemma {:induction false} MissingFromNames(configs: seq<(string, Value)>, i: nat)
    requires i <= |configs|
    ensures |MissingNames(configs[i..])| == |MissingFrom(configs, i)|
    ensures forall k :: 0 <= k < |MissingFrom(configs, i)| ==>
      MissingNames(configs[i..])[k] == configs[MissingFrom(configs, i)[k]].0
    decreases |configs| - i
  {
    if i < |configs| {
      MissingFromNames(configs, i + 1);
      assert configs[i..][1..] == configs[i + 1..];
      assert configs[i..][0] == configs[i];
    }
  }

  /** The missing names keep the settings' order: the k-th name reported is the
      name of the k-th missing setting. */
  lemma MissingNamesInOrder(configs: seq<(string, Value)>)
    ensures |MissingNames(configs)| == |MissingFrom(configs, 0)|
    ensures forall k :: 0 <= k < |MissingNames(configs)| ==>
      MissingNames(configs)[k] == configs[MissingFrom(configs, 0)[k]].0
  {
    MissingFromNames(configs, 0);
    assert configs[0..] == configs;
  }

  /** The five settings checked, in the order the check lists them. */
  function Required(siteUrl: Value, sharepointList: Value, userbase: Value, costCenter: Value,
                    actionHistory: Value): (r: seq<(string, Value)>)
    ensures |r| == 5
  {
    [("SITE_URL", siteUrl), ("SHAREPOINT_LIST", sharepointList), ("USERBASE", userbase),
     ("COST_CENTER", costCenter), ("ACTION_HISTORY", actionHistory)]
  }

  /** `validate_configuration`: True when nothing is missing, otherwise a
      `UserFriendlyError` naming every missing setting. */
  function ValidateConfiguration(configs: seq<(string, Value)>): (r: Result<bool, string>)
    ensures r.Ok? <==> forall i :: 0 <= i < |configs| ==> !Missing(configs[i].1)
    ensures r.Ok? ==> r.value
    ensures r.Err? ==>
      r.error == "Missing configuration values: " + Join(MissingNames(configs), ", ") + ". Please contact IT support."
  {
    var missing := MissingNames(configs);
    if missing != [] then
      Err("Missing configuration values: " + Join(missing, ", ") + ". Please contact IT support.")
    else Ok(true)
  }

  /** The shipped settings leave the site address empty, so the check on import
      reports exactly that one. */
  lemma ShippedConfiguration()
    ensures ValidateConfiguration(Required(Str(""), Str("STO_Inventory"), Str("pslv_users"),
                                           Str("cost_center"), Str("action_history"))) ==
      Err("Missing configuration values: " + "SITE_URL" + ". Please contact IT support.")
  {
    var c := Required(Str(""), Str("STO_Inventory"), Str("pslv_users"), Str("cost_center"), Str("action_history"));
    assert !IsSpace("STO_Inventory"[0]) && !IsSpace("pslv_users"[0]);
    assert !IsSpace("cost_center"[0]) && !IsSpace("action_history"[0]);
    assert MissingNames(c) == ["SITE_URL"];
    assert Join(["SITE_URL"], ", ") == "SITE_URL";
  }
}
