/** How long an order should stay in a status before it is advanced
    automatically (contexts/AppContext.tsx:235-248). */
module Durations {
  import opened Domain

  /** Per order type, per status, a duration in milliseconds. A missing key
      is a setting that is not defined. */
  type FlowConfig = map<OrderType, map<OrderStatus, int>>

  /** Where durations come from: the `order_flow` of the loaded settings (None
      when no settings or no `order_flow` are loaded) and the built-in
      default `order_flow`. */
  datatype FlowSource = FlowSource(custom: Option<FlowConfig>, defaults: FlowConfig)

  predicate Defines(cfg: FlowConfig, t: OrderType, s: OrderStatus) {
    t in cfg && s in cfg[t]
  }

  /** The duration for an (order type, status) pair: the configured value
      when defined, else the built-in value for that type, else the built-in
      counter (BALCAO) value for that status, else 0. */
  function Duration(src: FlowSource, t: OrderType, s: OrderStatus): (d: int)
    ensures src.custom.Some? && Defines(src.custom.value, t, s) ==>
              d == src.custom.value[t][s]
    ensures !(src.custom.Some? && Defines(src.custom.value, t, s)) && Defines(src.defaults, t, s) ==>
              d == src.defaults[t][s]
    ensures !(src.custom.Some? && Defines(src.custom.value, t, s)) && !Defines(src.defaults, t, s) ==>
              d == (if Defines(src.defaults, Balcao, s) then src.defaults[Balcao][s] else 0)
  {
    if src.custom.Some? && Defines(src.custom.value, t, s) then src.custom.value[t][s]
    else if Defines(src.defaults, t, s) then src.defaults[t][s]
    else if Defines(src.defaults, Balcao, s) then src.defaults[Balcao][s]
    else 0
  }

  /** The configuration that sets (t, s) to v. */
  function Configure(cfg: FlowConfig, t: OrderType, s: OrderStatus, v: int): (r: FlowConfig)
    ensures Defines(r, t, s) && r[t][s] == v
  {
    cfg[t := (if t in cfg then cfg[t] else map[])[s := v]]
  }

  /** Configuring one pair leaves every other pair as it was. */
  lemma ConfigureKeepsOthers(cfg: FlowConfig, t: OrderType, s: OrderStatus, v: int, t': OrderType, s': OrderStatus)
    requires t' != t || s' != s
    ensures Defines(Configure(cfg, t, s, v), t', s') == Defines(cfg, t', s')
    ensures Defines(cfg, t', s') ==> Configure(cfg, t, s, v)[t'][s'] == cfg[t'][s']
  {
    var cfg' := Configure(cfg, t, s, v);
    if t' != t {
      assert t' in cfg' <==> t' in cfg;
      assert t' in cfg ==> cfg'[t'] == cfg[t'];
    } else {
      var inner := if t in cfg then cfg[t] else map[];
      assert cfg'[t] == inner[s := v];
    }
  }

  /** Configuring a value for one pair makes it the duration of that pair and
      changes the duration of no other pair. */
  lemma ConfigureOverrides(src: FlowSource, t: OrderType, s: OrderStatus, v: int, t': OrderType, s': OrderStatus)
    requires src.custom.Some?
    ensures var src' := src.(custom := Some(Configure(src.custom.value, t, s, v)));
            Duration(src', t', s') == if t' == t && s' == s then v else Duration(src, t', s')
  {
    if t' != t || s' != s {
      ConfigureKeepsOthers(src.custom.value, t, s, v, t', s');
    }
  }
}
