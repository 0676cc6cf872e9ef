/** The info control: a panel whose markup explains the encoding. */
module Info {
  import opened Wrappers
  import opened Style

  /** The fixed text `info.update` writes. */
  const InfoText: string :=
    "<h4>USGS Live Earthquake Feed For 7 days </h4>" + "Circle Radius is a function of Magnitude" +
    "<br>" + "Circle color is a function of Depth"

  class InfoControl {
    /** `this._div`, given by the markup of its panel; `None` until `onAdd`
        has created the panel. */
    var div: Option<string>

    /** The control as `L.control()` returns it: no panel yet. */
    constructor ()
      ensures div == None
    {
      div := None;
    }

    /** `info.update`: writes the fixed text, whatever properties it is given.
        Without a panel, assigning `this._div.innerHTML` throws a TypeError:
        `thrown` reports it, and nothing changes. */
    method Update(props: Option<Properties>) returns (thrown: bool)
      modifies this
      ensures thrown <==> old(div) == None
      ensures div == if thrown then old(div) else Some(InfoText)
    {
      if div == None {
        thrown := true;
      } else {
        thrown := false;
        div := Some(InfoText);
      }
    }

    /** `info.onAdd`: creates an empty panel and fills it with `update()`,
        called without properties; returns the panel's markup. */
    method OnAdd() returns (html: string)
      modifies this
      ensures div == Some(InfoText) && html == InfoText
    {
      div := Some("");
      var thrown := Update(None);
      assert !thrown;
      html := div.value;
    }
  }

  /** Once the panel holds the fixed text, another `update`, with any
      properties, leaves it unchanged. */
  method UpdateIsIdempotent(info: InfoControl, props: Option<Properties>)
    requires info.div == Some(InfoText)
    modifies info
    ensures info.div == old(info.div)
  {
    var thrown := info.Update(props);
  }
}
