/** The header's rule for highlighting the navigation link of the current location. */
module Header {
  import opened JsString

  /** `isActive(path)` at `location`: the root only at the root, any other path as a prefix. */
  predicate IsActive(path: string, location: string) {
    if path == "/" && location == "/" then true
    else if path != "/" && StartsWith(location, path) then true
    else false
  }

  /** The four links of the navigation menu. */
  const NavPaths: seq<string> := ["/", "/productos", "/sostenibilidad", "/nosotros"]

  /** The root link is highlighted exactly at the root. */
  lemma RootActiveIff(location: string)
    ensures IsActive("/", location) <==> location == "/"
  {
  }

  /** Any other link is highlighted exactly when the location starts with it. */
  lemma NonRootActiveIff(path: string, location: string)
    requires path != "/"
    ensures IsActive(path, location) <==> |path| <= |location| && location[..|path|] == path
  {
  }

  /** Every link is highlighted at its own location. */
  lemma ActiveAtItself(path: string)
    ensures IsActive(path, path)
  {
  }

  /** The match is by characters, not by path segments: "/productos" is active below it and at "/productosx". */
  lemma PrefixNotSegment()
    ensures IsActive("/productos", "/productos/x")
    ensures IsActive("/productos", "/productosx")
    ensures !IsActive("/productos", "/producto")
    ensures !IsActive("/", "/productos")
  {
    assert "/productos/x"[..10] == "/productos";
    assert "/productosx"[..10] == "/productos";
  }

  /** A highlighted link of two or more characters fixes the location's second character. */
  lemma SecondCharOfActive(path: string, location: string)
    requires |path| >= 2
    ensures IsActive(path, location) ==> |location| >= 2 && location[1] == path[1]
  {
    if IsActive(path, location) {
      assert location[..|path|][1] == path[1];
    }
  }

  /** At any location at most one of the four menu links is highlighted. */
  lemma AtMostOneNavActive(location: string, i: nat, j: nat)
    requires i < j < |NavPaths|
    ensures !(IsActive(NavPaths[i], location) && IsActive(NavPaths[j], location))
  {
    SecondCharOfActive(NavPaths[j], location);
    if i == 0 {
      RootActiveIff(location);
    } else {
      SecondCharOfActive(NavPaths[i], location);
      assert NavPaths[i][1] != NavPaths[j][1];
    }
  }
}
