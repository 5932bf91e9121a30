/** The compact prompt ids of a batch, and what an answer in terms of them resolves to. */
module BatchTokens {
  import opened Decimal
  import opened Assistant
  import opened Sorting
  import Packing

  predicate IsHex(c: char) { '0' <= c <= '9' || 'a' <= c <= 'f' || 'A' <= c <= 'F' }

  /** The 8-4-4-4-12 hexadecimal shape. */
  predicate IsUuid(s: string) {
    |s| == 36 && forall i :: 0 <= i < 36 ==> if i in {8, 13, 18, 23} then s[i] == '-' else IsHex(s[i])
  }

  /** An id the prompt shows as it is; its length is counted in UTF-8 bytes. */
  predicate Plain(id: string) {
    && id != "" && !IsUuid(id) && Packing.Utf8Length(id) <= 64
    && (forall c :: c in id ==> c != ' ' && c != '\t' && c != '\n' && c != '\"')
  }

  function Numbered(index: nat): string { "v" + NatText(index + 1) }

  function TokenFor(index: nat, id: string, used: set<string>): string {
    var token := if Plain(id) then id else Numbered(index);
    if token !in used then token else Numbered(index)
  }

  /** The token table after all items: token to item id, later items overwriting. */
  function TokensOf(ids: seq<string>): map<string, string> {
    if ids == [] then map[]
    else
      var n := |ids| - 1;
      TokensOf(ids[..n])[TokenFor(n, ids[n], TokensOf(ids[..n]).Keys) := ids[n]]
  }

  function TokenAt(ids: seq<string>, i: nat): string
    requires i < |ids|
  {
    TokenFor(i, ids[i], TokensOf(ids[..i]).Keys)
  }

  function Resolve(raw: string, tokens: map<string, string>): Option<string> {
    var key := TrimSpace(raw);
    if key == "" then None
    else if key in tokens then Some(tokens[key])
    else if key in tokens.Values then Some(key)
    else None
  }

  lemma {:induction false} TokenIds(ids: seq<string>)
    ensures forall t :: t in TokensOf(ids) ==> TokensOf(ids)[t] in ids
    ensures forall t :: t in TokensOf(ids) ==> exists i :: 0 <= i < |ids| && t == TokenAt(ids, i)
  {
    hide Plain, Numbered;
    if ids != [] {
      var n := |ids| - 1;
      var front := ids[..n];
      TokenIds(front);
      forall t | t in TokensOf(ids) ensures exists i :: 0 <= i < |ids| && t == TokenAt(ids, i) {
        if t in TokensOf(front) {
          var i :| 0 <= i < n && t == TokenAt(front, i);
          assert front[..i] == ids[..i];
          assert t == TokenAt(ids, i);
        } else {
          assert t == TokenAt(ids, n);
        }
      }
    }
  }

  /** No token is handed out twice. */
  predicate NoReuse(ids: seq<string>) {
    forall i :: 0 <= i < |ids| ==> TokenAt(ids, i) !in TokensOf(ids[..i])
  }

  predicate Trimmed(s: string) { TrimSpace(s) == s }

  /** Echoing an item's token names that item. */
  predicate Faithful(ids: seq<string>) {
    forall i :: 0 <= i < |ids| ==> Resolve(TokenAt(ids, i), TokensOf(ids)) == Some(ids[i])
  }

  lemma {:induction false} TokenKept(ids: seq<string>, i: nat, n: nat)
    requires i < n <= |ids|
    requires forall j :: i < j < n ==> TokenAt(ids, j) != TokenAt(ids, i)
    ensures TokenAt(ids, i) in TokensOf(ids[..n]) && TokensOf(ids[..n])[TokenAt(ids, i)] == ids[i]
    decreases n
  {
    var prefix := ids[..n];
    assert prefix[..n - 1] == ids[..n - 1];
    assert TokensOf(prefix) == TokensOf(ids[..n - 1])[TokenAt(ids, n - 1) := ids[n - 1]];
    if i < n - 1 {
      TokenKept(ids, i, n - 1);
    }
  }

  lemma {:induction false} TokensGrow(ids: seq<string>, m: nat, n: nat)
    requires m <= n <= |ids|
    ensures TokensOf(ids[..m]).Keys <= TokensOf(ids[..n]).Keys
    decreases n
  {
    if m < n {
      TokensGrow(ids, m, n - 1);
      assert ids[..n][..n - 1] == ids[..n - 1];
    }
  }

  lemma TokenUsed(ids: seq<string>, i: nat, n: nat)
    requires i < n <= |ids|
    ensures TokenAt(ids, i) in TokensOf(ids[..n])
  {
    assert ids[..i + 1][..i] == ids[..i];
    TokensGrow(ids, i + 1, n);
  }

  lemma LastOwner(ids: seq<string>, i: nat) returns (j: nat)
    requires i < |ids|
    ensures i <= j < |ids| && TokenAt(ids, j) == TokenAt(ids, i)
    ensures TokenAt(ids, i) in TokensOf(ids) && TokensOf(ids)[TokenAt(ids, i)] == ids[j]
  {
    hide TokenAt, TokensOf;
    j := |ids| - 1;
    while TokenAt(ids, j) != TokenAt(ids, i)
      invariant i <= j < |ids|
      invariant forall k :: j < k < |ids| ==> TokenAt(ids, k) != TokenAt(ids, i)
      decreases j
    {
      j := j - 1;
    }
    TokenKept(ids, j, |ids|);
    assert ids[..|ids|] == ids;
  }

  /** The item is shown under its number: its id cannot be shown, or is the number of an earlier such item. */
  predicate Pushed(ids: seq<string>, i: nat)
    requires i < |ids|
    decreases i
  {
    !Plain(ids[i]) || exists k :: 0 <= k < i && ids[i] == Numbered(k) && Pushed(ids, k)
  }

  lemma UsedIff(ids: seq<string>, i: nat, t: string)
    requires i <= |ids|
    ensures t in TokensOf(ids[..i]) <==> exists k :: 0 <= k < i && TokenAt(ids, k) == t
  {
    TokenIds(ids[..i]);
    if t in TokensOf(ids[..i]) {
      var k :| 0 <= k < i && t == TokenAt(ids[..i], k);
      assert ids[..i][..k] == ids[..k];
      assert TokenAt(ids, k) == t;
    }
    if k :| 0 <= k < i && TokenAt(ids, k) == t {
      TokenUsed(ids, k, i);
    }
  }

  /** Which token an item gets, from the ids alone. */
  lemma {:induction false} TokenFromIds(ids: seq<string>, i: nat)
    requires Distinct(ids) && i < |ids|
    ensures TokenAt(ids, i) == if Pushed(ids, i) then Numbered(i) else ids[i]
    decreases i
  {
    hide Plain, Numbered, TokensOf;
    forall k | 0 <= k < i ensures TokenAt(ids, k) == if Pushed(ids, k) then Numbered(k) else ids[k] {
      TokenFromIds(ids, k);
    }
    UsedIff(ids, i, ids[i]);
    hide TokenAt;
    if Plain(ids[i]) {
      if k :| 0 <= k < i && TokenAt(ids, k) == ids[i] {
        assert Pushed(ids, k);
      }
      if k :| 0 <= k < i && ids[i] == Numbered(k) && Pushed(ids, k) {
        assert TokenAt(ids, k) == ids[i];
      }
    }
    TokenBy(ids, i);
  }

  lemma TokenBy(ids: seq<string>, i: nat)
    requires i < |ids|
    ensures TokenAt(ids, i) == if Plain(ids[i]) && ids[i] !in TokensOf(ids[..i]) then ids[i] else Numbered(i)
  {
  }

  /** An earlier item is shown under the number this item needs. */
  predicate Taken(ids: seq<string>, i: nat)
    requires i < |ids|
  {
    Pushed(ids, i) && exists j :: 0 <= j < i && ids[j] == Numbered(i) && Plain(ids[j])
  }

  /** A token is handed out a second time exactly there. */
  lemma ReusedIff(ids: seq<string>, i: nat)
    requires Distinct(ids) && i < |ids|
    ensures TokenAt(ids, i) in TokensOf(ids[..i]) <==> Taken(ids, i)
  {
    hide Plain, Numbered, TokensOf, TokenAt;
    UsedIff(ids, i, TokenAt(ids, i));
    TokenFromIds(ids, i);
    forall k | 0 <= k < i ensures TokenAt(ids, k) == if Pushed(ids, k) then Numbered(k) else ids[k] {
      TokenFromIds(ids, k);
    }
    forall k | 0 <= k < i ensures Numbered(k) != Numbered(i) {
      if Numbered(k) == Numbered(i) {
        NumberedInjective(i, k);
      }
    }
    if Taken(ids, i) {
      var j :| 0 <= j < i && ids[j] == Numbered(i) && Plain(ids[j]);
      assert !Pushed(ids, j);
      assert TokenAt(ids, j) == TokenAt(ids, i);
    }
  }

  /** With distinct ids, every echoed token names its own item exactly when no item's number is the shown id of an
      earlier one and no shown id has space at its edges. */
  lemma FaithfulIff(ids: seq<string>)
    requires Distinct(ids)
    ensures Faithful(ids) <==>
            forall i :: 0 <= i < |ids| ==> !Taken(ids, i) && (Pushed(ids, i) || Trimmed(ids[i]))
  {
    hide Plain, Numbered, TokensOf, Pushed, Taken, Trimmed;
    FaithfulIffFresh(ids);
    forall i | 0 <= i < |ids|
      ensures TokenAt(ids, i) in TokensOf(ids[..i]) <==> Taken(ids, i)
      ensures TokenAt(ids, i) != "" && Trimmed(TokenAt(ids, i)) <==> Pushed(ids, i) || Trimmed(ids[i])
    {
      ReusedIff(ids, i);
      TokenFromIds(ids, i);
      NumberedTrimmed(i);
      ShownNotEmpty(ids, i);
    }
  }

  lemma ShownNotEmpty(ids: seq<string>, i: nat)
    requires i < |ids|
    ensures Pushed(ids, i) || ids[i] != ""
  {
  }

  lemma FaithfulIffFresh(ids: seq<string>)
    requires Distinct(ids)
    ensures Faithful(ids) <==>
            NoReuse(ids) && forall i :: 0 <= i < |ids| ==> TokenAt(ids, i) != "" && Trimmed(TokenAt(ids, i))
  {
    assert ids[..|ids|] == ids;
    if Faithful(ids) {
      forall i | 0 <= i < |ids| ensures TokenAt(ids, i) !in TokensOf(ids[..i]) {
        if TokenAt(ids, i) in TokensOf(ids[..i]) {
          ReuseBreaks(ids, i);
        }
      }
      forall i | 0 <= i < |ids| ensures TokenAt(ids, i) != "" && Trimmed(TokenAt(ids, i)) {
        TokenTrimmed(ids, i);
      }
    }
    if NoReuse(ids) && forall i :: 0 <= i < |ids| ==> TokenAt(ids, i) != "" && Trimmed(TokenAt(ids, i)) {
      forall i | 0 <= i < |ids| ensures Resolve(TokenAt(ids, i), TokensOf(ids)) == Some(ids[i]) {
        TokenUsed(ids, i, |ids|);
        var j := LastOwner(ids, i);
        if i < j {
          TokenUsed(ids, i, j);
        }
      }
    }
  }

  lemma ReuseBreaks(ids: seq<string>, i: nat)
    requires Distinct(ids) && i < |ids| && TokenAt(ids, i) in TokensOf(ids[..i])
    ensures !Faithful(ids)
  {
    assert ids[..|ids|] == ids;
    TokenIds(ids[..i]);
    var k :| 0 <= k < i && TokenAt(ids, i) == TokenAt(ids[..i], k);
    assert ids[..i][..k] == ids[..k];
    assert TokenAt(ids, k) == TokenAt(ids, i);
  }

  lemma TokenTrimmed(ids: seq<string>, i: nat)
    requires Distinct(ids) && Faithful(ids) && i < |ids|
    ensures TokenAt(ids, i) != "" && Trimmed(TokenAt(ids, i))
  {
    var token, tokens := TokenAt(ids, i), TokensOf(ids);
    assert Resolve(token, tokens) == Some(ids[i]);
    var key := TrimSpace(token);
    if token == ids[i] && key != token {
      assert key in tokens && tokens[key] == ids[i];
      TokenIds(ids);
      var k :| 0 <= k < |ids| && key == TokenAt(ids, k);
      var j := LastOwner(ids, k);
    } else if token != ids[i] {
      assert token == Numbered(i);
      NumberedTrimmed(i);
    }
  }

  lemma NumberedTrimmed(i: nat)
    ensures Numbered(i) != "" && Trimmed(Numbered(i))
  {
    var s := Numbered(i);
    assert IsDigit(s[|s| - 1]);
    TrimSpaceId(s);
  }

  lemma NumberedInjective(i: nat, k: nat)
    requires Numbered(i) == Numbered(k)
    ensures i == k
  {
    assert NatText(i + 1) == Numbered(i)[1..] == Numbered(k)[1..] == NatText(k + 1);
    NatTextInjective(i + 1, k + 1);
  }

  /** No id of the form v<k>, no shown id with space at its edges. */
  ghost predicate WellNamed(ids: seq<string>) {
    && Distinct(ids)
    && (forall i, k: nat :: 0 <= i < |ids| ==> ids[i] != Numbered(k))
    && (forall i :: 0 <= i < |ids| && Plain(ids[i]) ==> Trimmed(ids[i]))
  }

  /** A plain sufficient condition. */
  lemma FaithfulIfNoNumberedIds(ids: seq<string>)
    requires WellNamed(ids)
    ensures Faithful(ids)
  {
    hide Plain, Numbered;
    FaithfulIff(ids);
  }

  /** The answer names item `i` by its token or by its id. */
  predicate Says(raw: string, ids: seq<string>, i: nat)
    requires i < |ids|
  {
    var key := TrimSpace(raw);
    key != "" && (key == TokenAt(ids, i) || key == ids[i])
  }

  lemma TokensCover(ids: seq<string>, i: nat)
    requires WellNamed(ids) && i < |ids|
    ensures TokenAt(ids, i) in TokensOf(ids) && TokensOf(ids)[TokenAt(ids, i)] == ids[i]
  {
    hide Plain, Numbered, TokensOf, TokenAt;
    FaithfulIfNoNumberedIds(ids);
    TokenTrimmed(ids, i);
    assert Resolve(TokenAt(ids, i), TokensOf(ids)) == Some(ids[i]);
    assert ids[..|ids|] == ids;
    TokenUsed(ids, i, |ids|);
  }

  /** For well-named ids an answer resolves to an item exactly when it names that item. */
  lemma ResolvesToOwn(ids: seq<string>, i: nat, raw: string)
    requires WellNamed(ids) && i < |ids|
    ensures Resolve(raw, TokensOf(ids)) == Some(ids[i]) <==> Says(raw, ids, i)
  {
    hide Plain, Numbered, TokensOf, TokenAt, TrimSpace;
    var tokens, key := TokensOf(ids), TrimSpace(raw);
    TokensCover(ids, i);
    if key in tokens {
      UsedIff(ids, |ids|, key);
      assert ids[..|ids|] == ids;
      var k :| 0 <= k < |ids| && TokenAt(ids, k) == key;
      TokensCover(ids, k);
      TokenFromIds(ids, k);
      assert tokens[key] == ids[k];
      if key == ids[i] {
        assert !Pushed(ids, k);
        assert ids[k] == ids[i];
      }
    } else {
      assert ids[i] in tokens.Values;
    }
  }

  lemma FirstToken()
    ensures Numbered(1) == "v2" && TokensOf(["v2"]) == map["v2" := "v2"] && TokenAt(["v2"], 0) == "v2"
  {
    assert NatText(2) == "2";
    assert ["v2"][..0] == [];
    assert Plain("v2");
  }

  /** A vacancy id shaped like v2 in front of an id that cannot be shown, such as a UUID or one of more than 64
      bytes: the model's "v2" then names the second item. */
  lemma NumberedIdMisattributed(id: string)
    requires !Plain(id)
    ensures Distinct(["v2", id]) && !Faithful(["v2", id])
    ensures Resolve("v2", TokensOf(["v2", id])) == Some(id)
  {
    var ids := ["v2", id];
    FirstToken();
    NumberedTrimmed(1);
    assert Plain("v2");
    hide Numbered, Plain, Trimmed, TrimSpace;
    assert ids[..1] == ["v2"] && ids[..0] == [] == ["v2"][..0];
    assert TokenAt(ids, 1) == "v2";
    assert TokensOf(ids) == map["v2" := id];
    TrimV2();
    assert TokenAt(ids, 0) == TokenAt(["v2"], 0);
  }

  /** UUIDs are never shown, nor are ids of more than 32 characters that take two or more bytes each. */
  lemma NotShown(id: string)
    ensures IsUuid(id) ==> !Plain(id)
    ensures |id| > 32 && (forall c :: c in id ==> c >= '\U{80}') ==> !Plain(id)
  {
    if forall c :: c in id ==> c >= '\U{80}' {
      WideLength(id);
    }
  }

  lemma {:induction false} WideLength(s: string)
    requires forall c :: c in s ==> c >= '\U{80}'
    ensures Packing.Utf8Length(s) >= 2 * |s|
  {
    if s != "" {
      assert s[0] in s && forall c :: c in s[1..] ==> c in s;
      WideLength(s[1..]);
    }
  }

  lemma TrimV2()
    ensures TrimSpace("v2") == "v2"
  {
    TrimSpaceId("v2");
  }
}
