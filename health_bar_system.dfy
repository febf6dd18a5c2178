/**
 * HealthBarSystem::Update: every entity with a health and a text-label component
 * gets a label showing its health percentage, coloured by threshold and placed
 * just above and to the right of the entity.
 */
module HealthBarSystem {
  import opened Components
  import Text
  import Wrappers

  /** Three-value SDL_Color initialisers: the alpha byte is left 0. */
  const RED: Color := Color(255, 0, 0, 0)
  const YELLOW: Color := Color(255, 255, 0, 0)
  const GREEN: Color := Color(0, 255, 0, 0)

  /** The label's offset from the entity's position. */
  const LABEL_OFFSET: Vec2 := Vec2(10, -10)

  function HealthColor(healthPercentage: int): (c: Color)
    ensures c == RED <==> healthPercentage < 30
    ensures c == YELLOW <==> 30 <= healthPercentage < 60
    ensures c == GREEN <==> 60 <= healthPercentage
  {
    if healthPercentage < 30 then RED
    else if healthPercentage < 60 then YELLOW
    else GREEN
  }

  /** The label after the update; its asset id and fixed flag are kept. */
  function Label(textLabel: TextLabelComponent, transform: TransformComponent, health: HealthComponent)
    : (r: TextLabelComponent)
    ensures r.position.x == transform.position.x + 10 && r.position.y == transform.position.y - 10
    ensures r.text == Text.IntToString(health.healthPercentage)
    ensures r.color == HealthColor(health.healthPercentage)
    ensures r.assetId == textLabel.assetId && r.isFixed == textLabel.isFixed
  {
    textLabel.(position := transform.position.Plus(LABEL_OFFSET),
           text := Text.IntToString(health.healthPercentage),
           color := HealthColor(health.healthPercentage))
  }

  /**
   * HealthBarSystem::Update over the system's entities: transforms[i],
   * healths[i] and labels[i] are the components of the i-th entity. Transforms
   * and health components are read only.
   */
  method Update(transforms: seq<TransformComponent>, healths: seq<HealthComponent>, labels: array<TextLabelComponent>)
    requires |transforms| == |healths| == labels.Length
    modifies labels
    ensures forall i :: 0 <= i < labels.Length ==> labels[i] == Label(old(labels[i]), transforms[i], healths[i])
  {
    var i := 0;
    while i < labels.Length
      invariant 0 <= i <= labels.Length
      invariant forall k :: 0 <= k < i ==> labels[k] == Label(old(labels[k]), transforms[k], healths[k])
      invariant forall k :: i <= k < labels.Length ==> labels[k] == old(labels[k])
    {
      var transform := transforms[i];
      var health := healths[i];
      var color := GREEN;
      if health.healthPercentage < 30 {
        color := RED;
      } else if health.healthPercentage < 60 {
        color := YELLOW;
      }
      assert color == HealthColor(health.healthPercentage);
      var position := transform.position;
      var offset := LABEL_OFFSET;
      labels[i] := labels[i].(position := position.Plus(offset),
                              text := Text.IntToString(health.healthPercentage),
                              color := color);
      i := i + 1;
    }
  }

  /** The label text reads back, with std::stoi, as the health percentage it shows. */
  lemma LabelTextReadsBack(textLabel: TextLabelComponent, transform: TransformComponent, health: HealthComponent)
    requires Text.INT_MIN <= health.healthPercentage <= Text.INT_MAX
    ensures Text.ParseInt(Label(textLabel, transform, health).text) == Wrappers.Ok(health.healthPercentage)
  {
    Text.IntToStringRoundTrip(health.healthPercentage);
  }

  /** The colour only gets warmer as health drops: red below yellow below green. */
  lemma ColorMonotone(p: int, q: int)
    requires p <= q
    ensures HealthColor(q) == RED ==> HealthColor(p) == RED
    ensures HealthColor(p) == GREEN ==> HealthColor(q) == GREEN
  {
  }
}
