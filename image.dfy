/** The per-pixel image rewrites of the registration tool: white pixels
    recoloured in place, and the two separations of a layer overlaid into
    one picture. An image is a 2-D array indexed `[x, y]`, `Length0` its
    width and `Length1` its height. */
module Image {

  type Channel = c: int | 0 <= c < 256

  /** A pixel as `QColor(image.pixel(x, y))` sees it: red, green, blue. */
  datatype Rgb = Rgb(red: Channel, green: Channel, blue: Channel)

  const White := Rgb(255, 255, 255)
  const Black := Rgb(0, 0, 0)
  const Green := Rgb(0, 255, 0)
  const Yellow := Rgb(255, 255, 0)

  /** `pixel.red() > 0 or pixel.green() > 0 or pixel.blue() > 0` */
  predicate NonBlack(p: Rgb)
  {
    p.red > 0 || p.green > 0 || p.blue > 0
  }

  /** What `change_white_pixels` makes of one pixel. */
  function Recolor(p: Rgb, c: Rgb): Rgb
  {
    if p == White then c else p
  }

  /** Recolouring a second time changes nothing: the pixels the first pass
      wrote are `c`, which is either not white or white written as white. */
  lemma RecolorIdempotent(p: Rgb, c: Rgb)
    ensures Recolor(Recolor(p, c), c) == Recolor(p, c)
    ensures Recolor(p, c) == c || Recolor(p, c) == p
    ensures Recolor(p, c) != p ==> p == White
  {
  }

  /** `change_white_pixels`: every white pixel of `image` becomes
      `newColor`, every other pixel stays; the image itself is returned. */
  method ChangeWhitePixels(image: array2<Rgb>, newColor: Rgb) returns (r: array2<Rgb>)
    modifies image
    ensures r == image
    ensures forall x, y :: 0 <= x < image.Length0 && 0 <= y < image.Length1 ==>
      image[x, y] == Recolor(old(image[x, y]), newColor)
  {
    for x := 0 to image.Length0
      invariant forall i, j :: 0 <= i < x && 0 <= j < image.Length1 ==>
        image[i, j] == Recolor(old(image[i, j]), newColor)
      invariant forall i, j :: x <= i < image.Length0 && 0 <= j < image.Length1 ==>
        image[i, j] == old(image[i, j])
    {
      for y := 0 to image.Length1
        invariant forall i, j :: 0 <= i < x && 0 <= j < image.Length1 ==>
          image[i, j] == Recolor(old(image[i, j]), newColor)
        invariant forall j :: 0 <= j < y ==> image[x, j] == Recolor(old(image[x, j]), newColor)
        invariant forall i, j :: 0 <= i < image.Length0 && 0 <= j < image.Length1 && (i > x || (i == x && j >= y)) ==>
          image[i, j] == old(image[i, j])
      {
        if image[x, y] == White {
          image[x, y] := newColor;
        }
      }
    }
    r := image;
  }

  /** Pixel `(x, y)` of `image` is inside it and not black. */
  predicate LitAt(image: array2<Rgb>, x: int, y: int)
    reads image
  {
    0 <= x < image.Length0 && 0 <= y < image.Length1 && NonBlack(image[x, y])
  }

  /** The overlay of two separations on a canvas of the first one's size:
      yellow where the second is lit, otherwise green where the first is,
      otherwise black. */
  predicate Overlaid(combined: array2<Rgb>, image1: array2<Rgb>, image2: array2<Rgb>)
    reads combined, image1, image2
  {
    combined.Length0 == image1.Length0 && combined.Length1 == image1.Length1 &&
    forall x, y :: 0 <= x < combined.Length0 && 0 <= y < combined.Length1 ==>
      combined[x, y] == (if LitAt(image2, x, y) then Yellow else if LitAt(image1, x, y) then Green else Black)
  }

  /** `combine_images(image1, image2, 1)`: a new picture of `image1`'s size,
      black where neither separation draws, green where the first does,
      and yellow where the second does (drawn last, it wins; outside the
      picture it is clipped away). */
  method Combine(image1: array2<Rgb>, image2: array2<Rgb>) returns (combined: array2<Rgb>)
    ensures fresh(combined) && Overlaid(combined, image1, image2)
  {
    combined := new Rgb[image1.Length0, image1.Length1]((x, y) => Black);
    for x := 0 to image1.Length0
      invariant forall i, j :: 0 <= i < combined.Length0 && 0 <= j < combined.Length1 ==>
        combined[i, j] == (if i < x && LitAt(image1, i, j) then Green else Black)
    {
      for y := 0 to image1.Length1
        invariant forall i, j :: 0 <= i < combined.Length0 && 0 <= j < combined.Length1 ==>
          combined[i, j] == (if (i < x || (i == x && j < y)) && LitAt(image1, i, j) then Green else Black)
      {
        if NonBlack(image1[x, y]) {
          combined[x, y] := Green;
        }
      }
    }
    for x := 0 to image2.Length0
      invariant forall i, j :: 0 <= i < combined.Length0 && 0 <= j < combined.Length1 ==>
        combined[i, j] == (if i < x && LitAt(image2, i, j) then Yellow else if LitAt(image1, i, j) then Green else Black)
    {
      for y := 0 to image2.Length1
        invariant forall i, j :: 0 <= i < combined.Length0 && 0 <= j < combined.Length1 ==>
          combined[i, j] == (if (i < x || (i == x && j < y)) && LitAt(image2, i, j) then Yellow
            else if LitAt(image1, i, j) then Green else Black)
      {
        if NonBlack(image2[x, y]) && x < combined.Length0 && y < combined.Length1 {
          combined[x, y] := Yellow;
        }
      }
    }
  }
}
