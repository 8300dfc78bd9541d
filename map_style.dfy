/**
 * The `style.load` handler of the `Map` component: once the engine's style
 * has loaded, every layer whose id mentions "poi" (in any letter case) or
 * whose type is "symbol" gets its `visibility` layout property set to
 * "none", so the catalogue's own markers are the only points of interest.
 */
module MapStyle {
  import opened Wrappers
  import opened Text

  /** A style layer; `visible` is its `visibility` layout property. */
  datatype Layer = Layer(id: string, layerType: string, visible: bool)

  /** The layers the handler hides. */
  predicate IsDefaultPoiLayer(l: Layer)
  {
    Includes(Lower(l.id), "poi") || l.layerType == "symbol"
  }

  /** What one layer becomes: hidden if it matches, otherwise untouched. */
  function Hidden(l: Layer): (r: Layer)
    ensures r.id == l.id && r.layerType == l.layerType
    ensures r.visible <==> l.visible && !IsDefaultPoiLayer(l)
  {
    if IsDefaultPoiLayer(l) then l.(visible := false) else l
  }

  /** What the layer list becomes: each layer as `Hidden` makes it, in the same order. */
  function HideDefaultLayers(layers: seq<Layer>): (r: seq<Layer>)
    ensures |r| == |layers|
    ensures forall i :: 0 <= i < |r| ==> r[i] == Hidden(layers[i])
    ensures forall i :: 0 <= i < |r| ==>
              && r[i].id == layers[i].id
              && r[i].layerType == layers[i].layerType
              && (r[i].visible <==> layers[i].visible && !IsDefaultPoiLayer(layers[i]))
  {
    if layers == [] then [] else [Hidden(layers[0])] + HideDefaultLayers(layers[1..])
  }

  /** The handler on a style that may lack a layer list (`style?.layers` is falsy). */
  function OnStyleLoad(style: Option<seq<Layer>>): (r: Option<seq<Layer>>)
    ensures style.None? <==> r.None?
    ensures style.Some? ==>
              && |r.value| == |style.value|
              && forall i :: 0 <= i < |r.value| ==>
                   && r.value[i].id == style.value[i].id
                   && (r.value[i].visible <==> style.value[i].visible && !IsDefaultPoiLayer(style.value[i]))
  {
    match style
    case None => None
    case Some(layers) => Some(HideDefaultLayers(layers))
  }

  /** Running the handler again hides nothing new. */
  lemma {:induction false} HideDefaultLayersIdempotent(layers: seq<Layer>)
    ensures HideDefaultLayers(HideDefaultLayers(layers)) == HideDefaultLayers(layers)
  {
    var once := HideDefaultLayers(layers);
    var twice := HideDefaultLayers(once);
    forall i | 0 <= i < |layers| ensures twice[i] == once[i] {
      assert once[i] == Hidden(layers[i]);
      assert IsDefaultPoiLayer(once[i]) == IsDefaultPoiLayer(layers[i]);
    }
  }

  /** The map engine's style, as far as the handler sees and changes it. */
  class MapEngine {
    var style: Option<seq<Layer>>

    constructor (style: Option<seq<Layer>>)
      ensures this.style == style
    {
      this.style := style;
    }

    /**
     * `map.on("style.load", ...)`: walk the layers in order and set
     * `visibility` to "none" on each matching one (layer ids are unique in
     * a style, so setting by id is setting by position).
     */
    method HandleStyleLoad()
      modifies this
      ensures style == OnStyleLoad(old(style))
    {
      if style.None? {
        return;
      }
      var layers := style.value;
      ghost var original := layers;
      var i := 0;
      while i < |layers|
        invariant 0 <= i <= |layers| && |layers| == |original|
        invariant style == Some(layers)
        invariant forall k :: 0 <= k < i ==> layers[k] == Hidden(original[k])
        invariant forall k :: i <= k < |layers| ==> layers[k] == original[k]
      {
        if IsDefaultPoiLayer(layers[i]) {
          layers := layers[i := layers[i].(visible := false)];
          style := Some(layers);
        }
        i := i + 1;
      }
      assert layers == HideDefaultLayers(original);
    }
  }
}
