/**
 * model/uiLayer.js: the older engine's corner buttons, faded in by mouse
 * moves and out after a delay, and fired by clicks inside their rectangle.
 */
module ModelUi {
  import Config
  import Clickable
  import UiLayer

  const VisibilityDelay: int := 100

  datatype ModelUi = ModelUi(alpha: real, counter: int, cursor: string, elements: seq<Clickable.Clickable>)

  /** `new UiLayer(canvas)`, given its elements (the gear button, whose
      callback is `null`, then the sound button). */
  function New(elements: seq<Clickable.Clickable>): (ui: ModelUi)
    ensures ui.alpha == 0.0 && ui.counter == VisibilityDelay && ui.elements == elements
  {
    ModelUi(0.0, VisibilityDelay, "", elements)
  }

  /** `show()`. */
  function Show(ui: ModelUi): (ui': ModelUi)
    ensures ui'.alpha == 1.0 && ui'.counter == VisibilityDelay && ui'.cursor == "default"
    ensures ui'.elements == ui.elements
  {
    ui.(alpha := 1.0, cursor := "default", counter := VisibilityDelay)
  }

  /** `display(ctx)` without its drawing: every element takes the layer's
      alpha, then the counter runs down and the layer hides at 0. */
  function Display(ui: ModelUi): (ui': ModelUi)
    ensures |ui'.elements| == |ui.elements|
    ensures forall i :: 0 <= i < |ui.elements| ==>
      ui'.elements[i] == ui.elements[i].(rect := ui.elements[i].rect.(alpha := ui.alpha))
    ensures ui.counter > 1 ==> ui'.counter == ui.counter - 1 && ui'.alpha == ui.alpha && ui'.cursor == ui.cursor
    ensures ui.counter <= 1 ==> ui'.counter == 0 && ui'.alpha == 0.0 && ui'.cursor == "none"
  {
    var es := seq(|ui.elements|, i requires 0 <= i < |ui.elements| =>
      ui.elements[i].(rect := ui.elements[i].rect.(alpha := ui.alpha)));
    var u := ui.(elements := es, counter := ui.counter - 1);
    if u.counter <= 0 then u.(alpha := 0.0, cursor := "none", counter := 0) else u
  }

  /** The layer is fully shown or fully hidden, and its counter stays in
      [0, VISIBILITYDELAY]. */
  predicate Valid(ui: ModelUi) {
    (ui.alpha == 0.0 || ui.alpha == 1.0) && 0 <= ui.counter <= VisibilityDelay
  }

  lemma ValidKept(ui: ModelUi)
    ensures Valid(Show(ui))
    ensures Valid(ui) ==> Valid(Display(ui))
  {
  }

  /** The point under the mouse lies in an element's closed rectangle. */
  predicate Hit(e: Clickable.Clickable, p: UiLayer.Point) {
    e.rect.x <= p.x <= e.rect.x + e.rect.w && e.rect.y <= p.y <= e.rect.y + e.rect.h
  }

  /** How a click ends: every hit element was fired, or a hit element's
      `null` callback threw and stopped the handler. */
  datatype ClickEnd = Finished(ui: ModelUi, config: Config.Config) | Aborted(ui: ModelUi, config: Config.Config)

  /** The click handler from element `i` on. */
  function ClickFrom(ui: ModelUi, c: Config.Config, k: Config.Constants, p: UiLayer.Point, i: nat): (res: ClickEnd)
    requires i <= |ui.elements|
    ensures |res.ui.elements| == |ui.elements|
    ensures forall j :: 0 <= j < |ui.elements| ==> res.ui.elements[j].rect == ui.elements[j].rect
    ensures forall j :: 0 <= j < i ==> res.ui.elements[j] == ui.elements[j]
    ensures forall j :: i <= j < |ui.elements| && !Hit(ui.elements[j], p) ==> res.ui.elements[j] == ui.elements[j]
    ensures res.Finished? ==> forall j :: i <= j < |ui.elements| && Hit(ui.elements[j], p) ==>
      ui.elements[j].callback.VolumeToggle? && res.ui.elements[j] == Clickable.Toggled(ui.elements[j])
    ensures res.Finished? <==> forall j :: i <= j < |ui.elements| && Hit(ui.elements[j], p) ==>
      !ui.elements[j].callback.Null?
    ensures (forall j :: i <= j < |ui.elements| ==> !Hit(ui.elements[j], p)) ==> res == Finished(ui, c)
    ensures (exists j :: i <= j < |ui.elements| && Hit(ui.elements[j], p)) ==>
      res.ui.alpha == 1.0 && res.ui.counter == VisibilityDelay
    decreases |ui.elements| - i
  {
    if i == |ui.elements| then Finished(ui, c)
    else if Hit(ui.elements[i], p) then
      var u := Show(ui);
      match Clickable.Action(u.elements[i], c, k)
      case Threw => Aborted(u, c)
      case Returned(e, c') =>
        ClickFrom(u.(elements := u.elements[i := e]), c', k, p, i + 1)
    else ClickFrom(ui, c, k, p, i + 1)
  }

  /** A click changes at most the volume. */
  lemma {:induction false} ClickFromVolumeOnly(ui: ModelUi, c: Config.Config, k: Config.Constants, p: UiLayer.Point, i: nat)
    requires i <= |ui.elements|
    ensures var c' := ClickFrom(ui, c, k, p, i).config;
      c'.lat == c.lat && c'.long == c.long && c'.positionSet == c.positionSet && c'.watching == c.watching
    decreases |ui.elements| - i
  {
    if i < |ui.elements| && Hit(ui.elements[i], p) {
      var u := Show(ui);
      var r := Clickable.Action(u.elements[i], c, k);
      if r.Returned? {
        ClickFromVolumeOnly(u.(elements := u.elements[i := r.element]), r.config, k, p, i + 1);
      }
    } else if i < |ui.elements| {
      ClickFromVolumeOnly(ui, c, k, p, i + 1);
    }
  }

  /** With no sound button under the mouse a click leaves the configuration
      untouched. */
  lemma {:induction false} ClickFromNoToggle(ui: ModelUi, c: Config.Config, k: Config.Constants, p: UiLayer.Point, i: nat)
    requires i <= |ui.elements|
    requires forall j :: i <= j < |ui.elements| && Hit(ui.elements[j], p) ==> !ui.elements[j].callback.VolumeToggle?
    ensures ClickFrom(ui, c, k, p, i).config == c
    decreases |ui.elements| - i
  {
    if i < |ui.elements| && Hit(ui.elements[i], p) {
      assert ui.elements[i].callback.Null?;
    } else if i < |ui.elements| {
      ClickFromNoToggle(ui, c, k, p, i + 1);
    }
  }

  /** The volume left by a run of elements fired in order, starting from
      `v`: each sound button under the point sets it from its `on` flag. */
  function LastVolume(es: seq<Clickable.Clickable>, p: UiLayer.Point, v: real, k: Config.Constants): real
    decreases |es|
  {
    if |es| == 0 then v
    else if Hit(es[0], p) && es[0].callback.VolumeToggle? then
      LastVolume(es[1..], p, if es[0].callback.on then 0.0 else k.volume, k)
    else LastVolume(es[1..], p, v, k)
  }

  /** A click that fires every hit element leaves the volume the elements
      set, in order. */
  lemma {:induction false} ClickFromVolume(ui: ModelUi, c: Config.Config, k: Config.Constants, p: UiLayer.Point, i: nat)
    requires i <= |ui.elements|
    ensures var res := ClickFrom(ui, c, k, p, i);
      res.Finished? ==> res.config.volume == LastVolume(ui.elements[i..], p, c.volume, k)
    decreases |ui.elements| - i
  {
    if i < |ui.elements| {
      assert ui.elements[i..][1..] == ui.elements[i + 1..];
      if Hit(ui.elements[i], p) {
        var u := Show(ui);
        var r := Clickable.Action(u.elements[i], c, k);
        if r.Returned? {
          var u' := u.(elements := u.elements[i := r.element]);
          assert u'.elements[i + 1..] == ui.elements[i + 1..];
          ClickFromVolume(u', r.config, k, p, i + 1);
        }
      } else {
        ClickFromVolume(ui, c, k, p, i + 1);
      }
    }
  }

  /** The volume is the one the last sound button under the point sets. */
  lemma {:induction false} LastVolumeFromLastHit(es: seq<Clickable.Clickable>, p: UiLayer.Point, v: real,
                                                 k: Config.Constants, j: nat)
    requires j < |es| && Hit(es[j], p) && es[j].callback.VolumeToggle?
    requires forall m :: j < m < |es| ==> !Hit(es[m], p)
    ensures LastVolume(es, p, v, k) == (if es[j].callback.on then 0.0 else k.volume)
    decreases |es|
  {
    if j > 0 {
      var v' := if Hit(es[0], p) && es[0].callback.VolumeToggle? then (if es[0].callback.on then 0.0 else k.volume) else v;
      assert LastVolume(es, p, v, k) == LastVolume(es[1..], p, v', k);
      LastVolumeFromLastHit(es[1..], p, v', k, j - 1);
    } else {
      LastVolumeNoHit(es[1..], p, if es[0].callback.on then 0.0 else k.volume, k);
    }
  }

  /** Elements not under the point leave the volume alone. */
  lemma {:induction false} LastVolumeNoHit(es: seq<Clickable.Clickable>, p: UiLayer.Point, v: real, k: Config.Constants)
    requires forall m :: 0 <= m < |es| ==> !Hit(es[m], p)
    ensures LastVolume(es, p, v, k) == v
    decreases |es|
  {
    if |es| > 0 {
      LastVolumeNoHit(es[1..], p, v, k);
    }
  }

  /** Once every hit element has fired, the volume is the one set by the
      last sound button hit. */
  lemma ClickFromLastToggle(ui: ModelUi, c: Config.Config, k: Config.Constants, p: UiLayer.Point, i: nat, j: nat)
    requires i <= j < |ui.elements| && Hit(ui.elements[j], p)
    requires forall m :: j < m < |ui.elements| ==> !Hit(ui.elements[m], p)
    ensures var res := ClickFrom(ui, c, k, p, i);
      res.Finished? ==> res.config.volume == (if ui.elements[j].callback.on then 0.0 else k.volume)
  {
    var res := ClickFrom(ui, c, k, p, i);
    if res.Finished? {
      ClickFromVolume(ui, c, k, p, i);
      assert ui.elements[j].callback.VolumeToggle?;
      LastVolumeFromLastHit(ui.elements[i..], p, c.volume, k, j - i);
    }
  }

  /** The `click` handler: the page position is mapped onto the canvas, then
      every element whose rectangle holds it, in order, shows the layer and
      fires. */
  function Click(ui: ModelUi, c: Config.Config, k: Config.Constants,
                 pageX: real, pageY: real, b: UiLayer.ClientRect): (res: ClickEnd)
    requires UiLayer.HasArea(b)
    ensures var p := UiLayer.MousePosition(k, pageX, pageY, b);
      && |res.ui.elements| == |ui.elements|
      && (forall j :: 0 <= j < |ui.elements| ==> res.ui.elements[j].rect == ui.elements[j].rect)
      && ((forall j :: 0 <= j < |ui.elements| ==> !Hit(ui.elements[j], p)) ==> res == Finished(ui, c))
      && ((exists j :: 0 <= j < |ui.elements| && Hit(ui.elements[j], p)) ==>
           res.ui.alpha == 1.0 && res.ui.counter == VisibilityDelay)
    ensures res.config.lat == c.lat && res.config.long == c.long
    ensures res.config.positionSet == c.positionSet && res.config.watching == c.watching
  {
    ClickFromVolumeOnly(ui, c, k, UiLayer.MousePosition(k, pageX, pageY, b), 0);
    ClickFrom(ui, c, k, UiLayer.MousePosition(k, pageX, pageY, b), 0)
  }
}
