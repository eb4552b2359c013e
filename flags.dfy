/**
 * The global flag records through which input handling and the scenes
 * communicate: which keys are held, whether the mouse was clicked, and the
 * lifecycle of a scene.
 */
module FlagSystem {

  /** `FlagEvents`: the game-over flag, six key flags and the mouse flag. */
  class FlagEvents {
    var gameEnd: bool
    var wPressed: bool
    var aPressed: bool
    var sPressed: bool
    var dPressed: bool
    var bPressed: bool
    var spacePressed: bool
    var mouseClicked: bool

    /** Whether none of the six keys is held. */
    predicate NoKeyHeld()
      reads this
    {
      !wPressed && !aPressed && !sPressed && !dPressed && !bPressed && !spacePressed
    }

    /**
     * The constructor clears the key and mouse flags. Its initialiser list
     * leaves `gameEnd` out, so nothing is known about it afterwards.
     */
    constructor()
      ensures NoKeyHeld() && !mouseClicked
    {
      wPressed := false;
      aPressed := false;
      sPressed := false;
      dPressed := false;
      bPressed := false;
      spacePressed := false;
      mouseClicked := false;
    }

    /** `resetFlags`: every one of the eight flags becomes false. */
    method ResetFlags()
      modifies this
      ensures NoKeyHeld() && !gameEnd && !mouseClicked
    {
      gameEnd := false;
      wPressed := false;
      aPressed := false;
      sPressed := false;
      dPressed := false;
      bPressed := false;
      spacePressed := false;
      mouseClicked := false;
    }

    /** `allFlagKeyReleased`: the six key flags become false; `gameEnd` and `mouseClicked` keep their values. */
    method AllFlagKeyReleased()
      modifies this
      ensures NoKeyHeld()
      ensures gameEnd == old(gameEnd) && mouseClicked == old(mouseClicked)
    {
      wPressed := false;
      aPressed := false;
      sPressed := false;
      dPressed := false;
      bPressed := false;
      spacePressed := false;
    }
  }

  /** `SceneEvents`: the start and end flags of a scene. */
  class SceneEvents {
    var sceneEnd: bool
    var sceneStart: bool

    constructor()
      ensures !sceneEnd && !sceneStart
    {
      sceneEnd := false;
      sceneStart := false;
    }

    /** `resetFlags`: the record is zero-filled, so both flags become false. */
    method ResetFlags()
      modifies this
      ensures !sceneEnd && !sceneStart
    {
      sceneEnd := false;
      sceneStart := false;
    }
  }

  /** `GameSceneEvents1`: the scene flags plus the player's jump and fall flags. */
  class GameSceneEvents1 {
    var sceneEnd: bool
    var sceneStart: bool
    var playerJumping: bool
    var playerFalling: bool

    /** A fresh record marks the scene as starting and nothing else. */
    constructor()
      ensures sceneStart && !sceneEnd && !playerJumping && !playerFalling
    {
      sceneEnd := false;
      sceneStart := true;
      playerJumping := false;
      playerFalling := false;
    }

    /** `resetFlags`: the record is zero-filled, so all four flags become false, `sceneStart` included. */
    method ResetFlags()
      modifies this
      ensures !sceneEnd && !sceneStart && !playerJumping && !playerFalling
    {
      sceneEnd := false;
      sceneStart := false;
      playerJumping := false;
      playerFalling := false;
    }
  }
}
