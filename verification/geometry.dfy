/** World-space points and the dense R x R x R cubes the reprojection layer
    stores them in (torch tensors of shape [R, R, R, ...]). */
module Geometry {

  datatype Vec3 = Vec3(x: real, y: real, z: real)

  function Add(a: Vec3, b: Vec3): Vec3 {
    Vec3(a.x + b.x, a.y + b.y, a.z + b.z)
  }

  function Sub(a: Vec3, b: Vec3): Vec3 {
    Vec3(a.x - b.x, a.y - b.y, a.z - b.z)
  }

  function Scale(a: Vec3, s: real): Vec3 {
    Vec3(a.x * s, a.y * s, a.z * s)
  }

  type Cube<T> = seq<seq<seq<T>>>

  /** The cube has exactly `n` cells along each of its three axes. */
  predicate IsCube<T>(c: Cube<T>, n: nat) {
    && |c| == n
    && (forall a :: 0 <= a < n ==> |c[a]| == n)
    && (forall a, b :: 0 <= a < n && 0 <= b < n ==> |c[a][b]| == n)
  }

  /** The cube whose cell (a, b, c) holds `f(a, b, c)`. */
  function BuildCube<T>(n: nat, f: (int, int, int) -> T): (r: Cube<T>)
    ensures IsCube(r, n)
    ensures forall a, b, c :: 0 <= a < n && 0 <= b < n && 0 <= c < n ==> r[a][b][c] == f(a, b, c)
  {
    seq(n, a => seq(n, b => seq(n, c => f(a, b, c))))
  }

  /** The element-wise image of a cube under `g`, as a torch operation on a
      tensor of shape [R, R, R, ...] produces. */
  function MapCube<A, B>(cube: Cube<A>, n: nat, g: A -> B): (r: Cube<B>)
    requires IsCube(cube, n)
    ensures IsCube(r, n)
    ensures forall a, b, c :: 0 <= a < n && 0 <= b < n && 0 <= c < n ==> r[a][b][c] == g(cube[a][b][c])
  {
    seq(n, a requires 0 <= a < n =>
      seq(n, b requires 0 <= b < n =>
        seq(n, c requires 0 <= c < n => g(cube[a][b][c]))))
  }

  /** `cube[a, b, c] = v`, leaving every other cell as it was. */
  function Set3<T>(cube: Cube<T>, n: nat, a: nat, b: nat, c: nat, v: T): (r: Cube<T>)
    requires IsCube(cube, n) && a < n && b < n && c < n
    ensures IsCube(r, n)
    ensures forall a', b', c' :: 0 <= a' < n && 0 <= b' < n && 0 <= c' < n ==>
      r[a'][b'][c'] == if (a', b', c') == (a, b, c) then v else cube[a'][b'][c']
  {
    cube[a := cube[a][b := cube[a][b][c := v]]]
  }
}
