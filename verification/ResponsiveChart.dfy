/**
 The redraw procedures of ChartNew.js on the fields that they update: ctx.firstPass, ctx.prevWidth and
 ctx.prevHeight, the chart's entry in jsGraphResize, and the frames scheduled with the browser.
 */
module ResponsiveChart {
  import opened Numbers
  import opened Redraw

  /** The fields of the drawing context and of its registry entry, and the frames that are scheduled. */
  class Chart {
    const env: Env
    var firstPass: int
    var container: Size
    var prev: Size
    var registry: Option<Payload>
    var pending: seq<Loop>
    var shown: Option<Payload>
    ghost var notified: bool
    ghost var accepted: Option<Payload>

    ghost function Model(): State
      reads this
    {
      State(firstPass, container, prev, registry, pending, shown, notified, accepted)
    }

    constructor (env: Env, container: Size)
      ensures Model() == Initial(container) && this.env == env
    {
      this.env := env;
      this.container := container;
      firstPass, prev, registry, pending, shown := UNDEFINED, Size(0, 0), None, [], None;
      notified, accepted := true, None;
    }

    method Create(p: Payload)
      modifies this
      ensures Model() == CreateChart(env, old(Model()), p)
    {
      if firstPass == UNDEFINED {
        registry, accepted := Some(p), Some(p);
        SubUpdateChart(p);
      } else {
        RedrawGraph(p);
      }
    }

    method UpdateChart(p: Payload, animation: bool)
      modifies this
      ensures Model() == Redraw.UpdateChart(env, old(Model()), p, animation)
    {
      if firstPass == 5 {
        firstPass := if animation then 0 else 7;
        registry, accepted := Some(p), Some(p);
        SubUpdateChart(p);
      }
    }

    method ChartJsResize()
      modifies this
      ensures Model() == Redraw.ChartJsResize(env, old(Model()))
    {
      notified := true;
      if registry.Some? {
        if firstPass == 5 {
          firstPass := 6;
        }
        SubUpdateChart(registry.value);
      }
    }

    method Resize(firstPass': int, p: Payload)
      modifies this
      ensures Model() == Resized(env, old(Model()), firstPass', p)
    {
      firstPass, prev, shown := firstPass', ResizeGraph(env, container, p.config), None;
    }

    method SubUpdateChart(p: Payload)
      modifies this
      ensures Model() == Redraw.SubUpdateChart(env, old(Model()), p)
      decreases Rank(firstPass), 2
    {
      if firstPass == 1 || firstPass == 2 {
        firstPass := 2;
      } else if firstPass == 3 || firstPass == 4 {
        firstPass := 4;
      } else if firstPass == 5 {
        firstPass := 1;
        RedrawGraph(p);
      } else if firstPass == 6 {
        if ResizeGraph(env, container, p.config) != prev {
          Resize(3, p);
          RedrawGraph(p);
        } else {
          firstPass := 5;
        }
      } else if firstPass == 7 {
        Resize(3, p);
        RedrawGraph(p);
      } else {
        Resize(1, p);
        RedrawGraph(p);
      }
    }

    method RedrawGraph(p: Payload)
      modifies this
      ensures Model() == Redraw.RedrawGraph(env, old(Model()), p)
      decreases Rank(firstPass), 1
    {
      shown := None;
      if env.drawable(p, prev) {
        pending := pending + [Loop(p, 0)];
      } else {
        var again := TestRedraw(p);
      }
    }

    method TestRedraw(p: Payload) returns (again: bool)
      modifies this
      ensures Model() == Redraw.TestRedraw(env, old(Model()), p)
      ensures again <==> old(firstPass) == 2 || old(firstPass) == 4
      decreases Rank(firstPass), 0
    {
      if firstPass == 2 || firstPass == 4 {
        firstPass := 6;
        SubUpdateChart(p);
        again := true;
      } else {
        firstPass := 5;
        again := false;
      }
    }

    method AnimLoop(k: nat)
      requires k < |pending|
      modifies this
      ensures Model() == Redraw.AnimLoop(env, old(Model()), k)
    {
      var loop := pending[k];
      pending := pending[..k] + pending[k + 1..];
      if LastFrame(firstPass, loop) {
        shown := Some(loop.payload);
        var again := TestRedraw(loop.payload);
      } else {
        pending := pending + [loop.(cntiter := loop.cntiter + 1)];
      }
    }
  }
}
