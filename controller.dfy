/** The drawing page's controller: its module-level variables become the fields of one
    object, each handler a method that updates them in place and appends the calls it
    makes on the drawing context to `log`. Each method is proved to do what the
    corresponding function of module Drawing says. */
module DrawingController {
  import opened Canvas
  import opened SnapshotHistory
  import Drawing

  class Controller {
    var isDrawing: bool
    var isErasing: bool
    var shape: string
    var history: seq<Drawing.Snapshot>
    var historyIndex: int
    /** Every call made on the drawing context so far, oldest first. */
    var log: seq<Command>
    const canvasWidth: nat
    const canvasHeight: nat

    /** The cursor designates the snapshot on display. */
    ghost predicate Valid()
      reads this
    {
      0 <= historyIndex < |history|
    }

    function Model(): Drawing.State
      reads this
    {
      Drawing.State(isDrawing, isErasing, shape, History(history, historyIndex))
    }

    /** Page load: the variables' initial values, then the first save. */
    constructor (canvasWidth: nat, canvasHeight: nat, image: ImageData, x: int, y: int)
      ensures Valid()
      ensures Model() == Drawing.Start(image, x, y) && log == []
      ensures this.canvasWidth == canvasWidth && this.canvasHeight == canvasHeight
    {
      this.canvasWidth := canvasWidth;
      this.canvasHeight := canvasHeight;
      isDrawing := false;
      isErasing := false;
      shape := "line";
      history := [];
      historyIndex := -1;
      log := [];
      new;
      SaveHistory(image, x, y);
    }

    method SaveHistory(image: ImageData, x: int, y: int)
      requires WellFormed(History(history, historyIndex))
      modifies this
      ensures History(history, historyIndex) == Save(old(History(history, historyIndex)), Drawing.Snapshot(image, x, y))
      ensures isDrawing == old(isDrawing) && isErasing == old(isErasing) && shape == old(shape) && log == old(log)
    {
      historyIndex := historyIndex + 1;
      if historyIndex < |history| {
        history := history[..historyIndex];
      }
      history := history + [Drawing.Snapshot(image, x, y)];
    }

    method StartDrawing(x: int, y: int)
      modifies this
      ensures Model() == old(Model()).(isDrawing := true)
      ensures log == old(log) + [BeginPath, MoveTo(x, y)]
    {
      isDrawing := true;
      log := log + [BeginPath];
      log := log + [MoveTo(x, y)];
    }

    method Draw(x: int, y: int)
      modifies this`log
      ensures Model() == old(Model()) && log == old(log) + Drawing.Draw(old(Model()), x, y)
    {
      if !isDrawing {
        return;
      }
      if isErasing {
        log := log + [ClearRect(x - 5, y - 5, 10, 10)];
      } else {
        log := log + [LineTo(x, y)];
        log := log + [Stroke];
      }
    }

    method DrawShape(x: int, y: int)
      requires isDrawing ==> Valid()
      modifies this`log
      ensures Model() == old(Model()) && log == old(log) + Drawing.DrawShape(old(Model()), x, y)
    {
      if !isDrawing {
        return;
      }
      var startX := history[historyIndex].x;
      var startY := history[historyIndex].y;
      var width := x - startX;
      var height := y - startY;
      if shape == "rect" {
        log := log + [StrokeRect(startX, startY, width, height)];
      } else if shape == "circle" {
        var radiusSquared := width * width + height * height;
        log := log + [BeginPath];
        log := log + [Arc(startX, startY, radiusSquared)];
        log := log + [Stroke];
      }
    }

    method EndDrawing(image: ImageData, x: int, y: int)
      requires Valid()
      modifies this
      ensures Valid()
      ensures Model() == Drawing.EndDrawing(old(Model()), image, x, y).state && log == old(log)
    {
      isDrawing := false;
      SaveHistory(image, x, y);
    }

    method Undo()
      requires Valid()
      modifies this`historyIndex, this`log
      ensures Valid()
      ensures var step := Drawing.UndoStep(old(Model()));
              Model() == step.state && log == old(log) + step.commands
    {
      if historyIndex > 0 {
        historyIndex := historyIndex - 1;
        log := log + [PutImageData(history[historyIndex].image)];
      }
    }

    method Redo()
      requires Valid()
      modifies this`historyIndex, this`log
      ensures Valid()
      ensures var step := Drawing.RedoStep(old(Model()));
              Model() == step.state && log == old(log) + step.commands
    {
      if historyIndex < |history| - 1 {
        historyIndex := historyIndex + 1;
        log := log + [PutImageData(history[historyIndex].image)];
      }
    }

    /** mousedown: both branches of the mousedown listener's mode test start drawing alike. */
    method MouseDown(x: int, y: int)
      requires Valid()
      modifies this
      ensures Valid()
      ensures var step := Drawing.MouseDown(old(Model()), x, y);
              Model() == step.state && log == old(log) + step.commands
    {
      StartDrawing(x, y);
    }

    method MouseMove(x: int, y: int)
      requires Valid()
      modifies this`log
      ensures var step := Drawing.MouseMove(old(Model()), x, y);
              Model() == step.state && log == old(log) + step.commands
    {
      if shape == "line" {
        Draw(x, y);
      } else {
        if isDrawing {
          log := log + [PutImageData(history[historyIndex].image)];
          DrawShape(x, y);
        }
      }
    }

    method ToggleEraser()
      requires Valid()
      modifies this`isErasing
      ensures Valid()
      ensures Model() == Drawing.ToggleEraser(old(Model())).state
    {
      isErasing := !isErasing;
    }

    method Clear(image: ImageData, x: int, y: int)
      requires Valid()
      modifies this
      ensures Valid()
      ensures var step := Drawing.Clear(old(Model()), canvasWidth, canvasHeight, image, x, y);
              Model() == step.state && log == old(log) + step.commands
    {
      log := log + [ClearRect(0, 0, canvasWidth, canvasHeight)];
      SaveHistory(image, x, y);
    }

    method SelectShape(value: string)
      requires Valid()
      modifies this`shape
      ensures Valid()
      ensures Model() == Drawing.SelectShape(old(Model()), value).state
    {
      shape := value;
    }

    /** The net effect of a loaded image file: draw it, then save. */
    method ImageLoaded(picture: ImageData, image: ImageData, x: int, y: int)
      requires Valid()
      modifies this
      ensures Valid()
      ensures var step := Drawing.ImageLoaded(old(Model()), picture, image, x, y);
              Model() == step.state && log == old(log) + step.commands
    {
      log := log + [DrawImage(picture)];
      SaveHistory(image, x, y);
    }
  }
}
