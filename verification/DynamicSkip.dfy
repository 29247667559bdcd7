/** Dynamic expert skipping: which tokens of a prompt may skip, which prefill call belongs to which token, and which of
    the routed experts a call keeps. */
module DynamicSkip {
  import opened Wrappers
  import opened Indexing
  import opened Vectors

  const IM_END := 163586
  const IM_USER := 163587
  const IM_ASSISTANT := 163588
  const IM_SYSTEM := 163594
  const IM_MIDDLE := 163601
  const MEDIA_START := 163602
  const MEDIA_END := 163604
  const MEDIA_PAD := 163605

  const FIRST_LAYER: nat := 1
  const LAST_LAYER: nat := 26

  datatype Family = Control | Content | Media

  // ---------------------------------------------------------------- the two classifiers

  datatype State = Outside | System | UserHeader | UserBody | InMedia | Assistant

  /** One token of the runtime's classifier: the next state and the family. */
  function Step(state: State, token: int): (State, Family) {
    if token == IM_SYSTEM then (System, Control)
    else if state == System then (if token == IM_END then Outside else System, Control)
    else if token == IM_USER then (UserHeader, Control)
    else if state == UserHeader then (if token == IM_MIDDLE then UserBody else UserHeader, Control)
    else if state == InMedia then
      (if token == MEDIA_END then UserBody else InMedia, if token == MEDIA_PAD then Media else Control)
    else if state == UserBody then
      if token == IM_END then (Outside, Control)
      else if token == MEDIA_START then (InMedia, Control)
      else if token == MEDIA_PAD then (UserBody, Media)
      else (UserBody, Content)
    else if token == IM_ASSISTANT then (Assistant, Control)
    else if state == Assistant then (Assistant, Control)
    else if token == MEDIA_PAD then (state, Media)
    else (state, Control)
  }

  function StateAfter(prompt: seq<int>, n: nat): State
    requires n <= |prompt|
  {
    if n == 0 then Outside else Step(StateAfter(prompt, n - 1), prompt[n - 1]).0
  }

  function FamilyAt(prompt: seq<int>, i: nat): Family
    requires i < |prompt|
  {
    Step(StateAfter(prompt, i), prompt[i]).1
  }

  /** `kvl_moe_dynskip_classify_prompt`, with the state updated in place. */
  method Classify(prompt: seq<int>) returns (r: Option<array<Family>>)
    ensures r.None? <==> |prompt| == 0
    ensures r.Some? ==>
      fresh(r.value) && r.value.Length == |prompt| && forall i | 0 <= i < |prompt| :: r.value[i] == FamilyAt(prompt, i)
  {
    if |prompt| == 0 {
      return None;
    }
    var out := new Family[|prompt|](_ => Control);
    var state := Outside;
    for i := 0 to |prompt|
      invariant state == StateAfter(prompt, i)
      invariant forall j | 0 <= j < i :: out[j] == FamilyAt(prompt, j)
    {
      var token, family := prompt[i], Control;
      if token == IM_SYSTEM {
        state := System;
      } else if state == System {
        if token == IM_END {
          state := Outside;
        }
      } else if token == IM_USER {
        state := UserHeader;
      } else if state == UserHeader {
        if token == IM_MIDDLE {
          state := UserBody;
        }
      } else if state == InMedia {
        if token == MEDIA_PAD {
          family := Media;
        }
        if token == MEDIA_END {
          state := UserBody;
        }
      } else if state == UserBody {
        if token == IM_END {
          state := Outside;
        } else if token == MEDIA_START {
          state := InMedia;
        } else if token == MEDIA_PAD {
          family := Media;
        } else {
          family := Content;
        }
      } else if token == IM_ASSISTANT {
        state := Assistant;
      } else if state == Assistant {
      } else if token == MEDIA_PAD {
        family := Media;
      }
      out[i] := family;
    }
    return Some(out);
  }

  /** The scopes of the profiling tool, and the families it groups them into. */
  datatype Scope = SystemScope | UserControl | UserContent | MediaControl | MediaPad | AssistantTransition
    | Unclassified

  datatype ToolFamily = ToolControl | ToolContent | ToolMedia | ToolUnclassified

  function ToolFamilyOf(s: Scope): ToolFamily {
    match s
    case UserContent => ToolContent
    case MediaPad => ToolMedia
    case Unclassified => ToolUnclassified
    case _ => ToolControl
  }

  /** The runtime protects what the tool leaves unclassified. */
  function AsRuntime(f: ToolFamily): Family {
    match f
    case ToolContent => Content
    case ToolMedia => Media
    case _ => Control
  }

  /** `classify_prompt_tokens`: one scope per token. */
  method ClassifyTokens(prompt: seq<int>) returns (r: Option<seq<Scope>>)
    ensures r.None? <==> |prompt| == 0
    ensures r.Some? ==>
      |r.value| == |prompt| && forall i | 0 <= i < |prompt| ::
        AsRuntime(ToolFamilyOf(r.value[i])) == FamilyAt(prompt, i)
  {
    if |prompt| == 0 {
      return None;
    }
    var out: seq<Scope> := [];
    var state := Outside;
    for i := 0 to |prompt|
      invariant state == StateAfter(prompt, i) && |out| == i
      invariant forall j | 0 <= j < i :: AsRuntime(ToolFamilyOf(out[j])) == FamilyAt(prompt, j)
    {
      var token := prompt[i];
      if token == IM_SYSTEM {
        state := System;
        out := out + [SystemScope];
        continue;
      }
      if state == System {
        out := out + [SystemScope];
        if token == IM_END {
          state := Outside;
        }
        continue;
      }
      if token == IM_USER {
        state := UserHeader;
        out := out + [UserControl];
        continue;
      }
      if state == UserHeader {
        out := out + [UserControl];
        if token == IM_MIDDLE {
          state := UserBody;
        }
        continue;
      }
      if state == InMedia {
        out := out + [if token == MEDIA_PAD then MediaPad else MediaControl];
        if token == MEDIA_END {
          state := UserBody;
        }
        continue;
      }
      if state == UserBody {
        if token == IM_END {
          out := out + [UserControl];
          state := Outside;
        } else if token == MEDIA_START {
          out := out + [MediaControl];
          state := InMedia;
        } else if token == MEDIA_PAD {
          out := out + [MediaPad];
        } else {
          out := out + [UserContent];
        }
        continue;
      }
      if token == IM_ASSISTANT {
        state := Assistant;
        out := out + [AssistantTransition];
        continue;
      }
      if state == Assistant {
        out := out + [AssistantTransition];
        continue;
      }
      out := out + [if token == MEDIA_PAD then MediaPad else Unclassified];
    }
    return Some(out);
  }

  // ---------------------------------------------------------------- what a family says about the prompt

  /** No `token` in `lo .. hi`. */
  predicate Free(prompt: seq<int>, token: int, lo: int, hi: int) {
    forall k | 0 <= lo <= k < hi <= |prompt| :: prompt[k] != token
  }

  /** A system marker with no end marker since. */
  predicate InSystem(prompt: seq<int>, n: nat) {
    exists s | 0 <= s < n <= |prompt| :: prompt[s] == IM_SYSTEM && Free(prompt, IM_END, s + 1, n)
  }

  /** The user marker at `u` is in force before `n`: not inside a system turn, and the newest of its kind. */
  predicate UserMarker(prompt: seq<int>, u: nat, n: nat) {
    u < n <= |prompt| && prompt[u] == IM_USER && !InSystem(prompt, u) &&
    Free(prompt, IM_USER, u + 1, n) && Free(prompt, IM_SYSTEM, u + 1, n)
  }

  /** A media start after `m` with no media end since. */
  predicate OpenMedia(prompt: seq<int>, m: nat, n: nat) {
    exists a | m < a < n <= |prompt| :: prompt[a] == MEDIA_START && Free(prompt, MEDIA_END, a + 1, n)
  }

  /** The user turn opened at `u` has its body from the first middle marker `m` on, and every end marker since lies in
      open media. */
  predicate UserTurn(prompt: seq<int>, u: nat, m: nat, n: nat) {
    u < m < n <= |prompt| && UserMarker(prompt, u, n) && prompt[m] == IM_MIDDLE && Free(prompt, IM_MIDDLE, u + 1, m) &&
    forall k | m < k < n && prompt[k] == IM_END :: OpenMedia(prompt, m, k)
  }

  /** Position `n` is in the body of a user turn, outside media. */
  ghost predicate InBody(prompt: seq<int>, n: nat) {
    exists u: nat, m: nat :: UserTurn(prompt, u, m, n) && !OpenMedia(prompt, m, n)
  }

  lemma {:induction false} SystemIff(prompt: seq<int>, n: nat)
    requires n <= |prompt|
    ensures StateAfter(prompt, n) == System <==> InSystem(prompt, n)
  {
    if n > 0 {
      SystemIff(prompt, n - 1);
      if InSystem(prompt, n) {
        var s :| 0 <= s < n && prompt[s] == IM_SYSTEM && Free(prompt, IM_END, s + 1, n);
        assert s < n - 1 ==> Free(prompt, IM_END, s + 1, n - 1) && prompt[n - 1] != IM_END;
      }
      if InSystem(prompt, n - 1) && prompt[n - 1] != IM_END {
        var s :| 0 <= s < n - 1 && prompt[s] == IM_SYSTEM && Free(prompt, IM_END, s + 1, n - 1);
        assert Free(prompt, IM_END, s + 1, n);
      }
      if prompt[n - 1] == IM_SYSTEM {
        assert Free(prompt, IM_END, n, n);
      }
    }
  }

  /** From its marker to its middle marker a turn is in its header. */
  lemma {:induction false} HeaderFrom(prompt: seq<int>, u: nat, n: nat)
    requires UserMarker(prompt, u, n) && Free(prompt, IM_MIDDLE, u + 1, n)
    ensures StateAfter(prompt, n) == UserHeader
  {
    if n == u + 1 {
      SystemIff(prompt, u);
    } else {
      HeaderFrom(prompt, u, n - 1);
    }
  }

  lemma {:induction false} HasMarker(prompt: seq<int>, n: nat) returns (u: nat)
    requires n <= |prompt| && StateAfter(prompt, n) == UserHeader
    ensures UserMarker(prompt, u, n) && Free(prompt, IM_MIDDLE, u + 1, n)
  {
    if prompt[n - 1] == IM_USER {
      SystemIff(prompt, n - 1);
      u := n - 1;
    } else {
      u := HasMarker(prompt, n - 1);
    }
  }

  lemma MediaStep(prompt: seq<int>, m: nat, n: nat)
    requires m < n - 1 && n <= |prompt|
    ensures OpenMedia(prompt, m, n) <==>
      prompt[n - 1] == MEDIA_START || (OpenMedia(prompt, m, n - 1) && prompt[n - 1] != MEDIA_END)
  {
    if prompt[n - 1] == MEDIA_START {
      assert Free(prompt, MEDIA_END, n, n);
    } else if OpenMedia(prompt, m, n) {
      var a :| m < a < n && prompt[a] == MEDIA_START && Free(prompt, MEDIA_END, a + 1, n);
      assert Free(prompt, MEDIA_END, a + 1, n - 1);
    } else if OpenMedia(prompt, m, n - 1) {
      var a :| m < a < n - 1 && prompt[a] == MEDIA_START && Free(prompt, MEDIA_END, a + 1, n - 1);
      assert prompt[n - 1] != MEDIA_END ==> Free(prompt, MEDIA_END, a + 1, n);
    }
  }

  lemma ShorterTurn(prompt: seq<int>, u: nat, m: nat, n: nat)
    requires UserTurn(prompt, u, m, n) && m < n - 1
    ensures UserTurn(prompt, u, m, n - 1)
  {
    hide InSystem, OpenMedia;
  }

  /** A turn is in its body, or in media while media are open. */
  lemma {:induction false} TurnFrom(prompt: seq<int>, u: nat, m: nat, n: nat)
    requires UserTurn(prompt, u, m, n)
    ensures StateAfter(prompt, n) == if OpenMedia(prompt, m, n) then InMedia else UserBody
  {
    if n == m + 1 {
      HeaderFrom(prompt, u, m) by {
        hide InSystem, OpenMedia;
      }
    } else {
      ShorterTurn(prompt, u, m, n);
      TurnFrom(prompt, u, m, n - 1);
      MediaStep(prompt, m, n);
      hide OpenMedia, InSystem;
    }
  }

  lemma {:induction false} HasTurn(prompt: seq<int>, n: nat) returns (u: nat, m: nat)
    requires n <= |prompt| && StateAfter(prompt, n) in {UserBody, InMedia}
    ensures UserTurn(prompt, u, m, n)
  {
    hide OpenMedia, InSystem;
    if StateAfter(prompt, n - 1) == UserHeader {
      u := HasMarker(prompt, n - 1);
      m := n - 1;
    } else {
      u, m := HasTurn(prompt, n - 1);
      TurnFrom(prompt, u, m, n - 1);
    }
  }

  /** The runtime is in a user body exactly where the tokens say so. */
  lemma BodyIff(prompt: seq<int>, n: nat)
    requires n <= |prompt|
    ensures StateAfter(prompt, n) == UserBody <==> InBody(prompt, n)
  {
    hide UserTurn, OpenMedia;
    if StateAfter(prompt, n) == UserBody {
      var u, m := HasTurn(prompt, n);
      TurnFrom(prompt, u, m, n);
    }
    if InBody(prompt, n) {
      var u: nat, m: nat :| UserTurn(prompt, u, m, n) && !OpenMedia(prompt, m, n);
      TurnFrom(prompt, u, m, n);
    }
  }

  /** Which tokens count as content: those of a user body outside media, but for five markers. */
  lemma ContentIff(prompt: seq<int>, i: nat)
    requires i < |prompt|
    ensures FamilyAt(prompt, i) == Content <==>
            InBody(prompt, i) && prompt[i] !in {IM_SYSTEM, IM_USER, IM_END, MEDIA_START, MEDIA_PAD}
  {
    BodyIff(prompt, i);
    hide InBody;
  }

  /** In the header of a user turn: its marker is in force and no middle marker came yet. */
  predicate InHeader(prompt: seq<int>, n: nat) {
    exists u: nat | u < n <= |prompt| :: UserMarker(prompt, u, n) && Free(prompt, IM_MIDDLE, u + 1, n)
  }

  /** In a user turn past its header. */
  ghost predicate InTurn(prompt: seq<int>, n: nat) {
    exists u: nat, m: nat :: UserTurn(prompt, u, m, n)
  }

  /** The assistant marker at `a` stands outside every other turn, and no system or user marker came since. */
  ghost predicate AssistantMarker(prompt: seq<int>, a: nat, n: nat) {
    a < n <= |prompt| && prompt[a] == IM_ASSISTANT && !InSystem(prompt, a) && !InHeader(prompt, a) &&
    !InTurn(prompt, a) &&
    Free(prompt, IM_SYSTEM, a + 1, n) && Free(prompt, IM_USER, a + 1, n)
  }

  ghost predicate InAssistant(prompt: seq<int>, n: nat) {
    exists a: nat :: AssistantMarker(prompt, a, n)
  }

  /** The states of the runtime, read off the tokens. */
  lemma StateIff(prompt: seq<int>, n: nat)
    requires n <= |prompt|
    ensures StateAfter(prompt, n) == System <==> InSystem(prompt, n)
    ensures StateAfter(prompt, n) == UserHeader <==> InHeader(prompt, n)
    ensures StateAfter(prompt, n) in {UserBody, InMedia} <==> InTurn(prompt, n)
  {
    SystemIff(prompt, n);
    hide InSystem, UserMarker, UserTurn, OpenMedia;
    if StateAfter(prompt, n) == UserHeader {
      var u := HasMarker(prompt, n);
      MarkerEarlier(prompt, u, n);
    }
    if InHeader(prompt, n) {
      var u: nat :| u < n && UserMarker(prompt, u, n) && Free(prompt, IM_MIDDLE, u + 1, n);
      HeaderFrom(prompt, u, n);
    }
    if StateAfter(prompt, n) in {UserBody, InMedia} {
      var u, m := HasTurn(prompt, n);
    }
    if InTurn(prompt, n) {
      var u: nat, m: nat :| UserTurn(prompt, u, m, n);
      TurnFrom(prompt, u, m, n);
    }
  }

  lemma MarkerEarlier(prompt: seq<int>, u: nat, n: nat)
    requires UserMarker(prompt, u, n)
    ensures u < n <= |prompt|
  {
  }

  lemma {:induction false} AssistantFrom(prompt: seq<int>, a: nat, n: nat)
    requires AssistantMarker(prompt, a, n)
    ensures StateAfter(prompt, n) == Assistant
  {
    hide InSystem, InHeader, InTurn;
    if n == a + 1 {
      StateIff(prompt, a);
    } else {
      AssistantFrom(prompt, a, n - 1);
    }
  }

  lemma {:induction false} HasAssistant(prompt: seq<int>, n: nat) returns (a: nat)
    requires n <= |prompt| && StateAfter(prompt, n) == Assistant
    ensures AssistantMarker(prompt, a, n)
  {
    hide InSystem, InHeader, InTurn;
    if StateAfter(prompt, n - 1) == Assistant {
      a := HasAssistant(prompt, n - 1);
    } else {
      a := n - 1;
      StateIff(prompt, a);
    }
  }

  /** Which tokens count as media: the pads outside system turns, user headers and assistant turns. */
  lemma MediaIff(prompt: seq<int>, i: nat)
    requires i < |prompt|
    ensures FamilyAt(prompt, i) == Media <==>
            prompt[i] == MEDIA_PAD && !InSystem(prompt, i) && !InHeader(prompt, i) && !InAssistant(prompt, i)
  {
    StateIff(prompt, i);
    hide InSystem, InHeader, InTurn, AssistantMarker;
    if StateAfter(prompt, i) == Assistant {
      var a := HasAssistant(prompt, i);
    }
    if InAssistant(prompt, i) {
      var a: nat :| AssistantMarker(prompt, a, i);
      AssistantFrom(prompt, a, i);
    }
  }

  predicate Structural(token: int) {
    token == IM_END || token == IM_USER || token == IM_ASSISTANT || token == IM_SYSTEM || token == IM_MIDDLE ||
    token == MEDIA_START || token == MEDIA_END
  }

  /** When a structural token is not protected: exactly three of the markers, in the body of a user turn outside
      media. */
  lemma StructuralContentIff(prompt: seq<int>, i: nat)
    requires i < |prompt| && Structural(prompt[i])
    ensures FamilyAt(prompt, i) != Control <==> InBody(prompt, i) && prompt[i] in {IM_ASSISTANT, IM_MIDDLE, MEDIA_END}
    ensures FamilyAt(prompt, i) != Media
  {
    ContentIff(prompt, i);
    hide InBody;
  }

  /** It happens: the assistant marker inside a user turn that was not closed counts as content. */
  lemma AssistantAsContent()
    ensures FamilyAt([IM_USER, IM_MIDDLE, IM_ASSISTANT], 2) == Content
  {
    var p := [IM_USER, IM_MIDDLE, IM_ASSISTANT];
    assert StateAfter(p, 1) == UserHeader && StateAfter(p, 2) == UserBody;
  }

  // ---------------------------------------------------------------- the prefill cursor

  /** `event_position`: the position of event `e` in a layer-major prefill of `n` tokens, if its layer fits. */
  function EventPosition(event: int, layer: int, n: int): Option<nat>
    requires event >= 1
  {
    if n <= 0 then None
    else
      Positive(event - 1, n);
      if (event - 1) / n + 1 != layer then None else Some((event - 1) % n)
  }

  lemma Positive(k: int, n: int)
    requires k >= 0 && n > 0
    ensures k / n >= 0 && k == k / n * n + k % n
  {
    var q := k / n;
    assert q * n + k % n == k;
    assert q < 0 ==> q * n <= -n;
  }

  /** The runtime cursor.  `accepted` counts the calls it has accepted. */
  class Cursor {
    const families: seq<Family>
    const enabled: bool
    var layer: int
    var pos: int
    var active: bool
    ghost var accepted: nat

    ghost predicate Valid()
      reads this
    {
      |families| > 0 &&
      (enabled && active ==>
        FIRST_LAYER <= layer <= LAST_LAYER && 0 <= pos < |families| &&
        accepted == (layer - FIRST_LAYER) * |families| + pos) &&
      (enabled && !active ==> accepted >= LAST_LAYER * |families|)
    }

    constructor (families: seq<Family>, enabled: bool)
      requires |families| > 0
      ensures Valid() && accepted == 0 && this.families == families && this.enabled == enabled && (enabled ==> active)
    {
      this.families, this.enabled := families, enabled;
      layer, pos, active, accepted := FIRST_LAYER, 0, true, 0;
    }

    /** `next_family`: event `accepted + 1` is taken exactly at its own layer, and gets the family of its own position;
        after all prefill events every call is control. */
    method NextFamily(at: int) returns (r: Option<Family>)
      requires Valid()
      modifies this
      ensures Valid()
      ensures !enabled ==> r == Some(Control)
      ensures enabled && old(accepted) < LAST_LAYER * |families| ==>
        (r.Some? <==> EventPosition(old(accepted) + 1, at, |families|).Some?) &&
        (r.Some? ==> EventPosition(old(accepted) + 1, at, |families|).value < |families| &&
                     r.value == families[EventPosition(old(accepted) + 1, at, |families|).value])
      ensures enabled && old(accepted) >= LAST_LAYER * |families| ==> r == Some(Control)
      ensures r.Some? ==> accepted == old(accepted) + 1
      ensures r.None? ==> accepted == old(accepted)
    {
      if !enabled || !active {
        accepted := accepted + 1;
        return Some(Control);
      }
      CursorFacts(layer - FIRST_LAYER, pos, |families|);
      if at != layer || pos < 0 || pos >= |families| {
        return None;
      }
      var family := families[pos];
      pos := pos + 1;
      accepted := accepted + 1;
      if pos == |families| {
        pos := 0;
        layer := layer + 1;
        if layer > LAST_LAYER {
          active := false;
        }
      }
      return Some(family);
    }

    lemma CursorFacts(row: int, col: int, n: nat)
      requires 0 <= row < LAST_LAYER && 0 <= col < n
      ensures (row * n + col) / n == row && (row * n + col) % n == col && row * n + col < LAST_LAYER * n
      ensures (row + 1) * n == row * n + n
    {
      FlatInRange(row, col, LAST_LAYER, n);
    }

    /** A layer-major prefill from the start: every call is accepted with the family of its token, and afterwards the
        cursor is off.  `rows[l][t]` is the answer to the call for token `t` at the `l`-th routed layer. */
    method Prefill() returns (rows: seq<seq<Option<Family>>>)
      requires Valid() && enabled && accepted == 0
      modifies this
      ensures Valid() && !active && accepted == LAST_LAYER * |families|
      ensures |rows| == LAST_LAYER && forall l | 0 <= l < |rows| :: Granted(rows[l])
    {
      var n := |families|;
      rows := [];
      for l := 0 to LAST_LAYER
        invariant Valid() && accepted == l * n && |rows| == l && forall k | 0 <= k < l :: Granted(rows[k])
      {
        assert (l + 1) * n == l * n + n;
        var row := [];
        for t := 0 to n
          invariant Valid() && accepted == l * n + t && |row| == t &&
            forall k | 0 <= k < t :: row[k] == Some(families[k])
        {
          CursorFacts(l, t, n);
          var family := NextFamily(FIRST_LAYER + l);
          row := row + [family];
        }
        rows := rows + [row];
      }
      Spent();
    }

    /** One call per token, each accepted with the family of its token. */
    predicate Granted(row: seq<Option<Family>>) {
      |row| == |families| && forall t | 0 <= t < |row| :: row[t] == Some(families[t])
    }

    /** Once every prefill event is accepted the cursor is off. */
    lemma Spent()
      requires Valid() && enabled && accepted >= LAST_LAYER * |families|
      ensures !active
    {
      if active {
        CursorFacts(layer - FIRST_LAYER, pos, |families|);
      }
    }
  }

  // ---------------------------------------------------------------- the keep decision

  const MAX_TOPK := 256
  const MAX_LAYERS := 256

  datatype Policy = Policy(threshold: real, minKeep: int)

  function CountTrue(keep: seq<bool>, n: nat): nat
    requires n <= |keep|
  {
    if n == 0 then 0 else CountTrue(keep, n - 1) + if keep[n - 1] then 1 else 0
  }

  /** How many routes have at least the threshold share of the total weight. */
  function CountAbove(w: Vec, sum: real, threshold: real, n: nat): nat {
    if n == 0 then 0 else CountAbove(w, sum, threshold, n - 1) + if Div(At(w, n - 1), sum) >= threshold then 1 else 0
  }

  /** Every kept route is heavier than every dropped one, or as heavy and earlier. */
  ghost predicate Heaviest(w: Vec, keep: seq<bool>) {
    forall i, j | 0 <= i < |keep| && 0 <= j < |keep| && keep[i] && !keep[j] ::
      At(w, i) > At(w, j) || (At(w, i) == At(w, j) && i < j)
  }

  function Clamp(minKeep: int, topK: int): int {
    var low := if minKeep < 1 then 1 else minKeep;
    if low > topK then topK else low
  }

  predicate Negative(w: Vec, n: nat) { exists i: nat :: i < n && At(w, i) < 0.0 }

  lemma SharesOrdered(a: real, b: real, sum: real)
    requires sum > 0.0
    ensures Div(a, sum) > Div(b, sum) <==> a > b
    ensures Div(a, sum) == Div(b, sum) <==> a == b
  {
    var x, y := a / sum, b / sum;
    assert x * sum == a && y * sum == b;
    assert x > y ==> x * sum > y * sum;
    assert y > x ==> y * sum > x * sum;
  }

  lemma ShareAtLeast(a: real, sum: real, threshold: real)
    requires sum > 0.0
    ensures Div(a, sum) >= threshold <==> a >= Mul(threshold, sum)
  {
    var x := a / sum;
    assert x * sum == a;
    assert x >= threshold ==> x * sum >= threshold * sum;
    assert x < threshold ==> x * sum < threshold * sum;
  }

  lemma {:induction false} CountFlip(keep: seq<bool>, at: nat, n: nat)
    requires at < n <= |keep| && !keep[at]
    ensures CountTrue(keep[at := true], n) == CountTrue(keep, n) + 1
  {
    if n - 1 > at {
      CountFlip(keep, at, n - 1);
    } else {
      CountSame(keep, keep[at := true], at);
    }
  }

  lemma {:induction false} CountSame(a: seq<bool>, b: seq<bool>, n: nat)
    requires n <= |a| && n <= |b| && a[..n] == b[..n]
    ensures CountTrue(a, n) == CountTrue(b, n)
  {
    if n > 0 {
      assert a[..n - 1] == a[..n][..n - 1] && b[..n - 1] == b[..n][..n - 1];
      assert a[n - 1] == a[..n][n - 1] && b[n - 1] == b[..n][n - 1];
      CountSame(a, b, n - 1);
    }
  }

  lemma {:induction false} AllTrue(keep: seq<bool>, n: nat)
    requires n <= |keep|
    ensures CountTrue(keep, n) <= n
    ensures CountTrue(keep, n) == n <==> forall i | 0 <= i < n :: keep[i]
  {
    if n > 0 {
      AllTrue(keep, n - 1);
    }
  }

  lemma {:induction false} SomeTrue(keep: seq<bool>, n: nat)
    requires n <= |keep|
    ensures CountTrue(keep, n) >= 1 <==> exists i :: 0 <= i < n && keep[i]
  {
    if n > 0 {
      SomeTrue(keep, n - 1);
    }
  }

  /** The heaviest route not kept yet, the first of them on ties; -1 if all are kept. */
  method NextBest(w: Vec, keep: array<bool>, sum: real) returns (best: int)
    requires sum > 0.0
    ensures -1 <= best < keep.Length
    ensures best < 0 <==> forall i | 0 <= i < keep.Length :: keep[i]
    ensures best >= 0 ==> !keep[best]
    ensures best >= 0 ==>
      forall j | 0 <= j < keep.Length && !keep[j] :: At(w, best) > At(w, j) || (At(w, best) == At(w, j) && best <= j)
  {
    best := -1;
    for i := 0 to keep.Length
      invariant -1 <= best < i && (best < 0 <==> forall j | 0 <= j < i :: keep[j])
      invariant best >= 0 ==> !keep[best]
      invariant best >= 0 ==>
        forall j | 0 <= j < i && !keep[j] :: At(w, best) > At(w, j) || (At(w, best) == At(w, j) && best <= j)
    {
      if !keep[i] {
        if best < 0 {
          best := i;
        } else {
          SharesOrdered(At(w, i), At(w, best), sum);
          if Div(At(w, i), sum) > Div(At(w, best), sum) {
            best := i;
          }
        }
      }
    }
  }

  /** The routes above the threshold. */
  method KeepAbove(w: Vec, keep: array<bool>, sum: real, threshold: real) returns (kept: nat)
    requires sum > 0.0
    modifies keep
    ensures kept == CountTrue(keep[..], keep.Length) == CountAbove(w, sum, threshold, keep.Length) &&
      Heaviest(w, keep[..])
    ensures forall i | 0 <= i < keep.Length :: keep[i] <==> At(w, i) >= Mul(threshold, sum)
  {
    kept := 0;
    for i := 0 to keep.Length
      invariant kept == CountTrue(keep[..], i) == CountAbove(w, sum, threshold, i)
      invariant forall j | 0 <= j < i :: keep[j] <==> Div(At(w, j), sum) >= threshold
    {
      ghost var before := keep[..];
      var above := Div(At(w, i), sum) >= threshold;
      keep[i] := above;
      CountSame(before, keep[..], i);
      kept := kept + if above then 1 else 0;
    }
    forall i | 0 <= i < keep.Length
      ensures keep[i] <==> At(w, i) >= Mul(threshold, sum)
    {
      ShareAtLeast(At(w, i), sum, threshold);
    }
    hide Div;
    forall i, j | 0 <= i < keep.Length && 0 <= j < keep.Length && keep[i] && !keep[j]
      ensures At(w, i) > At(w, j)
    {
      SharesOrdered(At(w, i), At(w, j), sum);
    }
  }

  /** `kvl_moe_dynskip_apply_policy`, for the policy entry of the family and layer. */
  method ApplyPolicy(family: Family, layer: int, policy: Policy, w: Vec, keep: array<bool>)
      returns (ok: bool, skipped: int)
    modifies keep
    ensures ok <==>
      0 < keep.Length <= MAX_TOPK && 0 <= layer < MAX_LAYERS &&
      (family != Control && policy.threshold > 0.0 ==> !Negative(w, keep.Length))
    // protected calls, inactive entries and weightless routes keep everything
    ensures ok && (family == Control || policy.threshold <= 0.0 || Total(w, keep.Length) <= 0.0) ==>
      skipped == 0 && forall i | 0 <= i < keep.Length :: keep[i]
    // otherwise the kept routes are the heaviest, as many as are above the threshold or as the minimum asks
    ensures ok && family != Control && policy.threshold > 0.0 && Total(w, keep.Length) > 0.0 ==>
      var above, least := CountAbove(w, Total(w, keep.Length), policy.threshold, keep.Length),
        Clamp(policy.minKeep, keep.Length);
      Heaviest(w, keep[..]) && CountTrue(keep[..], keep.Length) == (if above > least then above else least) &&
      skipped == keep.Length - CountTrue(keep[..], keep.Length)
    // never none, and as many as the minimum asks unless there are fewer routes; more than those above the threshold
    // only to reach the minimum
    ensures ok && family != Control && policy.threshold > 0.0 && Total(w, keep.Length) > 0.0 ==>
      var kept, above := CountTrue(keep[..], keep.Length),
        CountAbove(w, Total(w, keep.Length), policy.threshold, keep.Length);
      kept >= 1 && (kept >= policy.minKeep || kept == keep.Length) &&
      (kept > above ==> kept == 1 || kept <= policy.minKeep)
    // a route with at least the threshold share of the total is kept; when more routes are kept than the minimum
    // asks, or when it asks for one and some route has that share, the kept routes are exactly those
    ensures ok && family != Control && policy.threshold > 0.0 && Total(w, keep.Length) > 0.0 ==>
      var cut := Mul(policy.threshold, Total(w, keep.Length));
      (forall i | 0 <= i < keep.Length && At(w, i) >= cut :: keep[i]) &&
      (CountTrue(keep[..], keep.Length) > Clamp(policy.minKeep, keep.Length) ||
       (policy.minKeep <= 1 && exists i :: 0 <= i < keep.Length && At(w, i) >= cut) ==>
         forall i | 0 <= i < keep.Length :: keep[i] <==> At(w, i) >= cut)
  {
    hide Div, Mul;
    ok, skipped := false, 0;
    var topK := keep.Length;
    if topK <= 0 || topK > MAX_TOPK || layer < 0 || layer >= MAX_LAYERS {
      return;
    }
    for i := 0 to topK
      invariant forall j | 0 <= j < i :: keep[j]
    {
      keep[i] := true;
    }
    if family == Control || policy.threshold <= 0.0 {
      ok := true;
      return;
    }
    var sum := 0.0;
    for i := 0 to topK
      invariant sum == Total(w, i) && forall j: nat | j < i :: At(w, j) >= 0.0
    {
      if At(w, i) < 0.0 {
        return;
      }
      sum := sum + At(w, i);
    }
    ok := true;
    if !(sum > 0.0) {
      return;
    }
    var kept := KeepAbove(w, keep, sum, policy.threshold);
    var least := Clamp(policy.minKeep, topK);
    SomeTrue(keep[..], topK);
    kept := FillUp(w, keep, sum, kept, least);
    AllTrue(keep[..], topK);
    skipped := topK - kept;
  }

  /** The loop that adds the heaviest routes until the minimum is reached. */
  method FillUp(w: Vec, keep: array<bool>, sum: real, start: nat, least: int) returns (kept: nat)
    requires sum > 0.0 && start == CountTrue(keep[..], keep.Length) && Heaviest(w, keep[..]) && least <= keep.Length
    modifies keep
    ensures kept == CountTrue(keep[..], keep.Length) == (if start > least then start else least) &&
      Heaviest(w, keep[..])
    ensures forall i | 0 <= i < keep.Length && old(keep[i]) :: keep[i]
    ensures start >= least ==> keep[..] == old(keep[..])
  {
    kept := start;
    while kept < least
      invariant forall i | 0 <= i < keep.Length && old(keep[i]) :: keep[i]
      invariant start >= least ==> keep[..] == old(keep[..])
      invariant kept == CountTrue(keep[..], keep.Length) && Heaviest(w, keep[..])
      invariant kept <= (if start > least then start else least) && kept >= start
      decreases least - kept
    {
      AllTrue(keep[..], keep.Length);
      var best := NextBest(w, keep, sum);
      assert best >= 0;
      CountFlip(keep[..], best, keep.Length);
      keep[best] := true;
      kept := kept + 1;
    }
  }
}
