/** Value types of the game engine (Bevy) and its physics plug-in (Rapier)
    that the game's systems read and write. */
module Engine {

  /** An entity handle; the engine hands out a fresh one for every spawn. */
  type Entity = nat

  datatype Option<T> = None | Some(value: T)

  datatype Vec2 = Vec2(x: real, y: real)

  datatype Vec3 = Vec3(x: real, y: real, z: real)

  datatype Quat = Quat(x: real, y: real, z: real, w: real)

  /** Bevy's `Transform`: where an entity is, how it is turned and scaled. */
  datatype Transform = Transform(translation: Vec3, rotation: Quat, scale: Vec3)

  /** The keys the modelled systems look at; other keys change nothing here. */
  datatype KeyCode = W | A | S | D | Space

  /** One frame's keyboard snapshot: the keys held down, and the keys whose
      press began this frame. */
  datatype Input = Input(pressed: set<KeyCode>, justPressed: set<KeyCode>)
}
